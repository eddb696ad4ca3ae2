/** Compiling and filtering by labels: when they can be exchanged. */
module LabelFiltering {
  import opened Wrappers
  import opened Text
  import opened Json
  import opened Model
  import opened Lists
  import opened Sorting
  import opened Middlewares
  import opened Validation
  import opened Compiler
  import opened Writers
  import opened References
  import opened Routing
  import opened MiddlewareRouting
  import opened AgentConfig
  import Labels

  ghost predicate Reaches(h: ProxyHost, proto: Protocol, labels: seq<string>) {
    h.enabled && Proto(h) == proto && Selected(h, labels)
  }

  // The sanitized and mangled names of the hosts that reach the agent.
  ghost function ReachedKeys(hosts: seq<ProxyHost>, proto: Protocol, labels: seq<string>): set<string> {
    set h | h in hosts && Reaches(h, proto, labels) :: Key(h)
  }

  ghost function ReachedMwKeys(hosts: seq<ProxyHost>, labels: seq<string>): set<string> {
    set h, k | h in hosts && Reaches(h, HTTP, labels) && k in MwKeys(h) :: k
  }

  ghost function Restrict(m: Object, keys: set<string>): Object {
    map k | k in m && k in keys :: m[k]
  }

  // ---------------------------------------------------------------- the hosts that reach an agent

  /** Of the hosts that reach the agent and sanitize to one name, the one named last. */
  ghost predicate PresentFor(hosts: seq<ProxyHost>, labels: seq<string>, proto: Protocol, h: ProxyHost) {
    && h in hosts && Reaches(h, proto, labels)
    && forall g :: g in hosts && Reaches(g, proto, labels) && Key(g) == Key(h) ==> !Less(h.name, g.name)
  }

  lemma AgentMember(hosts: seq<ProxyHost>, labels: seq<string>, s: ProxyHost)
    ensures s in AgentHosts(SnapshotHosts(hosts), labels) <==> exists h :: h in hosts && Selected(h, labels) && s == SnapshotHost(h)
  {
    hide SnapshotHost, Selected, SnapshotHosts;
    SnapshotMember(hosts, s);
    if s in SnapshotHosts(hosts) {
      var h :| h in hosts && s == SnapshotHost(h);
      SnapshotSelected(h, labels);
    }
    if h :| h in hosts && Selected(h, labels) && s == SnapshotHost(h) { SnapshotSelected(h, labels); }
  }

  lemma SnapshotSelected(h: ProxyHost, labels: seq<string>)
    ensures Selected(SnapshotHost(h), labels) <==> Selected(h, labels)
    ensures Key(SnapshotHost(h)) == Key(h) && Proto(SnapshotHost(h)) == Proto(h)
    ensures SnapshotHost(h).enabled == h.enabled && SnapshotHost(h).name == h.name
  {
    hide SnapshotHost, Selected, Key;
    SnapshotKeeps(h);
  }

  // In the agent's list, the hosts not shadowed are the snapshots of these.
  lemma PresentIff(hosts: seq<ProxyHost>, labels: seq<string>, proto: Protocol, h: ProxyHost)
    requires h in hosts && Reaches(h, proto, labels)
    ensures Present(AgentHosts(SnapshotHosts(hosts), labels), SnapshotHost(h)) <==> PresentFor(hosts, labels, proto, h)
  {
    hide SnapshotHost, Selected, SnapshotHosts, AgentHosts, Key;
    var mine := AgentHosts(SnapshotHosts(hosts), labels);
    SnapshotSelected(h, labels);
    AgentMember(hosts, labels, SnapshotHost(h));
    if g :| g in hosts && Reaches(g, proto, labels) && Key(g) == Key(h) && Less(h.name, g.name) {
      SnapshotSelected(g, labels);
      AgentMember(hosts, labels, SnapshotHost(g));
      assert Shadowed(mine, SnapshotHost(h));
    }
    if Shadowed(mine, SnapshotHost(h)) {
      var s :| s in mine && s.enabled && Proto(s) == Proto(SnapshotHost(h)) && Key(s) == Key(SnapshotHost(h)) && Less(h.name, s.name);
      AgentMember(hosts, labels, s);
      var g :| g in hosts && Selected(g, labels) && s == SnapshotHost(g);
      SnapshotSelected(g, labels);
    }
  }

  lemma PresentOrigin(hosts: seq<ProxyHost>, labels: seq<string>, proto: Protocol, s: ProxyHost) returns (h: ProxyHost)
    requires Present(AgentHosts(SnapshotHosts(hosts), labels), s) && Proto(s) == proto
    ensures PresentFor(hosts, labels, proto, h) && s == SnapshotHost(h) && Key(s) == Key(h)
  {
    hide SnapshotHost, Selected, SnapshotHosts, AgentHosts, Key, PresentFor;
    AgentMember(hosts, labels, s);
    h :| h in hosts && Selected(h, labels) && s == SnapshotHost(h);
    SnapshotSelected(h, labels);
    PresentIff(hosts, labels, proto, h);
  }

  // ---------------------------------------------------------------- one map of a section

  ghost predicate SnapshotProof(val: ProxyHost -> Value) {
    forall h :: val(SnapshotHost(h)) == val(h)
  }

  lemma SnapshotSame(val: ProxyHost -> Value, h: ProxyHost)
    requires SnapshotProof(val)
    ensures val(SnapshotHost(h)) == val(h)
  {
  }

  ghost predicate AgentSection(hosts: seq<ProxyHost>, labels: seq<string>, hs: seq<ProxyHost>, mine: seq<ProxyHost>, proto: Protocol) {
    Routed(proto) && Listing(hs, hosts, KeepFor(proto)) && Listing(mine, AgentHosts(SnapshotHosts(hosts), labels), KeepFor(proto))
  }

  /** Under each name, the last host that reaches the agent and the last host of
      the fleet emit the same. */
  ghost predicate SameEntries(hosts: seq<ProxyHost>, labels: seq<string>, proto: Protocol, val: ProxyHost -> Value) {
    forall h, g :: PresentFor(hosts, labels, proto, h) && Present(hosts, g) && Proto(g) == proto && Key(g) == Key(h) ==>
      val(h) == val(g)
  }

  // A reached name is present for the fleet and for the agent.
  lemma ReachedName(hosts: seq<ProxyHost>, labels: seq<string>, hs: seq<ProxyHost>, mine: seq<ProxyHost>, proto: Protocol, h: ProxyHost)
    returns (g: ProxyHost, l: ProxyHost)
    requires AgentSection(hosts, labels, hs, mine, proto) && h in hosts && Reaches(h, proto, labels)
    ensures Present(hosts, g) && Proto(g) == proto && Key(g) == Key(h)
    ensures PresentFor(hosts, labels, proto, l) && Key(l) == Key(h)
  {
    hide Key, WriteAll, Selected, SnapshotHost, SnapshotHosts, AgentHosts, Shadowed, PresentFor;
    assert h in hs;
    var n :| 0 <= n < |hs| && hs[n] == h;
    WriteAllAt(hs, RouterFor(proto), Key(h));
    WrittenByPresent(hs, hosts, proto, RouterFor(proto));
    g :| Present(hosts, g) && Proto(g) == proto && Key(g) == Key(h);
    var s := SnapshotHost(h);
    SnapshotSelected(h, labels);
    AgentMember(hosts, labels, s);
    assert s in mine;
    var m :| 0 <= m < |mine| && mine[m] == s;
    WriteAllAt(mine, RouterFor(proto), Key(h));
    WrittenByPresent(mine, AgentHosts(SnapshotHosts(hosts), labels), proto, RouterFor(proto));
    var t :| Present(AgentHosts(SnapshotHosts(hosts), labels), t) && Proto(t) == proto && Key(t) == Key(h);
    l := PresentOrigin(hosts, labels, proto, t);
  }

  lemma AgentName(hosts: seq<ProxyHost>, labels: seq<string>, mine: seq<ProxyHost>, proto: Protocol, val: ProxyHost -> Value, k: string)
    returns (h: ProxyHost)
    requires Routed(proto) && Listing(mine, AgentHosts(SnapshotHosts(hosts), labels), KeepFor(proto)) && k in WriteAll(mine, val)
    ensures PresentFor(hosts, labels, proto, h) && Key(h) == k
  {
    hide Key, WriteAll, AgentHosts, Listing, Present, PresentFor;
    WrittenByPresent(mine, AgentHosts(SnapshotHosts(hosts), labels), proto, val);
    var s :| Present(AgentHosts(SnapshotHosts(hosts), labels), s) && Proto(s) == proto && Key(s) == k;
    h := PresentOrigin(hosts, labels, proto, s);
  }

  // What an agent's map holds.
  lemma AgentEntries(hosts: seq<ProxyHost>, labels: seq<string>, mine: seq<ProxyHost>, proto: Protocol, val: ProxyHost -> Value)
    requires Routed(proto) && Listing(mine, AgentHosts(SnapshotHosts(hosts), labels), KeepFor(proto)) && SnapshotProof(val)
    ensures forall k :: k in WriteAll(mine, val) <==> exists h :: PresentFor(hosts, labels, proto, h) && Key(h) == k
    ensures forall h :: PresentFor(hosts, labels, proto, h) ==> Key(h) in WriteAll(mine, val) && WriteAll(mine, val)[Key(h)] == val(h)
  {
    hide Key, WriteAll, Selected, SnapshotHost, SnapshotHosts, AgentHosts, Listing, SnapshotProof, Shadowed;
    var snapshot, m := AgentHosts(SnapshotHosts(hosts), labels), WriteAll(mine, val);
    WrittenByPresent(mine, snapshot, proto, val);
    forall h | PresentFor(hosts, labels, proto, h) ensures Key(h) in m && m[Key(h)] == val(h) {
      PresentIff(hosts, labels, proto, h);
      SnapshotSelected(h, labels);
      SnapshotSame(val, h);
    }
    forall k | k in m ensures exists h :: PresentFor(hosts, labels, proto, h) && Key(h) == k {
      var h := AgentName(hosts, labels, mine, proto, val, k);
    }
  }

  /** One map of a section, for an agent and for the fleet: the names are always
      those of the hosts that reach the agent, and the entries agree exactly
      when under each name the last hosts emit the same. */
  lemma MapRestricted(hosts: seq<ProxyHost>, labels: seq<string>, hs: seq<ProxyHost>, mine: seq<ProxyHost>,
                      proto: Protocol, val: ProxyHost -> Value)
    requires SnapshotProof(val) && AgentSection(hosts, labels, hs, mine, proto)
    ensures var a, b, keys := WriteAll(mine, val), WriteAll(hs, val), ReachedKeys(hosts, proto, labels);
      && a.Keys == b.Keys * keys
      && (a == Restrict(b, keys) <==> SameEntries(hosts, labels, proto, val))
  {
    hide Key, WriteAll, SnapshotProof, PresentFor, AgentSection, ReachedKeys, Restrict, SameEntries;
    NamesRestricted(hosts, labels, hs, mine, proto, val);
    EntriesAgree(hosts, labels, hs, mine, proto, val);
  }

  lemma NamesRestricted(hosts: seq<ProxyHost>, labels: seq<string>, hs: seq<ProxyHost>, mine: seq<ProxyHost>,
                        proto: Protocol, val: ProxyHost -> Value)
    requires SnapshotProof(val) && AgentSection(hosts, labels, hs, mine, proto)
    ensures WriteAll(mine, val).Keys == WriteAll(hs, val).Keys * ReachedKeys(hosts, proto, labels)
  {
    hide Key, WriteAll, Selected, SnapshotHost, SnapshotHosts, AgentHosts, Listing, SnapshotProof, Present, Reaches;
    var a, b, keys := WriteAll(mine, val), WriteAll(hs, val), ReachedKeys(hosts, proto, labels);
    WrittenByPresent(hs, hosts, proto, val);
    AgentEntries(hosts, labels, mine, proto, val);
    forall k ensures k in a <==> k in b && k in keys {
      if k in a {
        var h :| PresentFor(hosts, labels, proto, h) && Key(h) == k;
        var g, l := ReachedName(hosts, labels, hs, mine, proto, h);
      }
      if k in keys {
        var h :| h in hosts && Reaches(h, proto, labels) && Key(h) == k;
        var g, l := ReachedName(hosts, labels, hs, mine, proto, h);
      }
    }
  }

  lemma EntriesAgree(hosts: seq<ProxyHost>, labels: seq<string>, hs: seq<ProxyHost>, mine: seq<ProxyHost>,
                     proto: Protocol, val: ProxyHost -> Value)
    requires SnapshotProof(val) && AgentSection(hosts, labels, hs, mine, proto)
    ensures WriteAll(mine, val) == Restrict(WriteAll(hs, val), ReachedKeys(hosts, proto, labels)) <==>
            SameEntries(hosts, labels, proto, val)
  {
    hide Key, WriteAll, Listing, SnapshotProof, Present, PresentFor, ReachedKeys;
    var a, b, keys := WriteAll(mine, val), WriteAll(hs, val), ReachedKeys(hosts, proto, labels);
    NamesRestricted(hosts, labels, hs, mine, proto, val);
    WrittenByPresent(hs, hosts, proto, val);
    AgentEntries(hosts, labels, mine, proto, val);
    assert Restrict(b, keys).Keys == a.Keys;
    if SameEntries(hosts, labels, proto, val) {
      forall k | k in a ensures a[k] == b[k] {
        var h :| PresentFor(hosts, labels, proto, h) && Key(h) == k;
        var g :| Present(hosts, g) && Proto(g) == proto && Key(g) == k;
      }
    }
    if a == Restrict(b, keys) {
      forall h, g | PresentFor(hosts, labels, proto, h) && Present(hosts, g) && Proto(g) == proto && Key(g) == Key(h)
        ensures val(h) == val(g)
      {
        assert a[Key(h)] == b[Key(h)];
      }
    }
  }

  // ---------------------------------------------------------------- routers

  // Routers of different hosts differ: their domains or entry points do.
  lemma RoutersDiffer(p: Platform, hosts: seq<ProxyHost>, g: ProxyHost, h: ProxyHost)
    requires Publishable(p, hosts) && g in hosts && h in hosts && g != h && g.enabled && h.enabled
    requires Proto(g) == Proto(h) && Routed(Proto(g))
    ensures RouterFor(Proto(g))(g) != RouterFor(Proto(h))(h)
  {
    hide Publishable, Key, MwKeys, RuleFor;
    hide HttpRouter, UdpRouter, RuledRouter, WithTls;
    PairCoexists(p, hosts, g, h);
    EntryPointsNeeded(p, hosts, g);
    if IsHttp(g) {
      HttpRouterFields(g);
      HttpRouterFields(h);
      RuleInjective("Host", g.domain, h.domain);
    } else if IsTcp(g) {
      RuledFields(g, "HostSNI", "websecure");
      RuledFields(h, "HostSNI", "websecure");
      RuleInjective("HostSNI", g.domain, h.domain);
    } else {
      UdpRouterFields(g);
      UdpRouterFields(h);
      SharedPort(g, h, g.entryPoints[0]);
    }
  }

  lemma EntryPointsNeeded(p: Platform, hosts: seq<ProxyHost>, h: ProxyHost)
    requires Publishable(p, hosts) && h in hosts && h.enabled
    ensures Proto(h) == UDP ==> h.entryPoints != []
  {
    var n :| 0 <= n < |hosts| && hosts[n] == h;
    assert HostOk(p, hosts[n]);
  }

  /** No host is routed for the agent that the fleet does not route. */
  ghost predicate NoneRevived(hosts: seq<ProxyHost>, labels: seq<string>, proto: Protocol) {
    forall h :: PresentFor(hosts, labels, proto, h) ==> !Shadowed(hosts, h)
  }

  lemma RoutersAgree(p: Platform, hosts: seq<ProxyHost>, labels: seq<string>, hs: seq<ProxyHost>, mine: seq<ProxyHost>, proto: Protocol)
    requires Publishable(p, hosts) && AgentSection(hosts, labels, hs, mine, proto)
    ensures SameEntries(hosts, labels, proto, RouterFor(proto)) <==> NoneRevived(hosts, labels, proto)
  {
    hide Publishable, Key, Selected, Shadowed, RouterFor, AgentSection;
    if NoneRevived(hosts, labels, proto) {
      forall h, g | PresentFor(hosts, labels, proto, h) && Present(hosts, g) && Proto(g) == proto && Key(g) == Key(h)
        ensures RouterFor(proto)(h) == RouterFor(proto)(g)
      {
        SamePresent(p, hosts, g, h);
      }
    }
    if SameEntries(hosts, labels, proto, RouterFor(proto)) {
      forall h | PresentFor(hosts, labels, proto, h) ensures !Shadowed(hosts, h) {
        var g, _ := ReachedName(hosts, labels, hs, mine, proto, h);
        RoutedSection(hosts, labels, hs, mine, proto);
        if g != h { RoutersDiffer(p, hosts, g, h); }
      }
    }
  }

  lemma RoutedSection(hosts: seq<ProxyHost>, labels: seq<string>, hs: seq<ProxyHost>, mine: seq<ProxyHost>, proto: Protocol)
    requires AgentSection(hosts, labels, hs, mine, proto)
    ensures Routed(proto)
  {
  }

  // ---------------------------------------------------------------- middlewares

  /** Of the hosts that reach the agent and write a mangled name, the one named last. */
  ghost predicate LastWriterFor(hosts: seq<ProxyHost>, labels: seq<string>, h: ProxyHost, i: int, k: string) {
    && h in hosts && Reaches(h, HTTP, labels) && WritesMw(h, i, k)
    && forall x, m :: x in hosts && Reaches(x, HTTP, labels) && Less(h.name, x.name) ==> !WritesMw(x, m, k)
  }

  lemma SnapshotWrites(h: ProxyHost, i: int, k: string)
    ensures WritesMw(SnapshotHost(h), i, k) <==> WritesMw(h, i, k)
    ensures |SnapshotHost(h).middlewares| == |h.middlewares|
  {
    hide Key, MwKey, Selected, SnapshotHost;
    SnapshotKeeps(h);
  }

  lemma LastWriterForIff(hosts: seq<ProxyHost>, labels: seq<string>, h: ProxyHost, i: int, k: string)
    requires h in hosts && Reaches(h, HTTP, labels)
    ensures LastWriter(AgentHosts(SnapshotHosts(hosts), labels), SnapshotHost(h), i, k) <==> LastWriterFor(hosts, labels, h, i, k)
  {
    hide SnapshotHost, Selected, SnapshotHosts, AgentHosts, Key, WritesMw;
    var mine := AgentHosts(SnapshotHosts(hosts), labels);
    SnapshotSelected(h, labels);
    SnapshotWrites(h, i, k);
    AgentMember(hosts, labels, SnapshotHost(h));
    if LastWriter(mine, SnapshotHost(h), i, k) {
      forall x, m | x in hosts && Reaches(x, HTTP, labels) && Less(h.name, x.name) ensures !WritesMw(x, m, k) {
        SnapshotSelected(x, labels);
        SnapshotWrites(x, m, k);
        AgentMember(hosts, labels, SnapshotHost(x));
      }
    }
    if LastWriterFor(hosts, labels, h, i, k) {
      forall s, m | s in mine && s.enabled && IsHttp(s) && Less(SnapshotHost(h).name, s.name) ensures !WritesMw(s, m, k) {
        AgentMember(hosts, labels, s);
        var x :| x in hosts && Selected(x, labels) && s == SnapshotHost(x);
        SnapshotSelected(x, labels);
        SnapshotWrites(x, m, k);
      }
    }
  }

  /** Under each mangled name, the last writer that reaches the agent, read back
      from the snapshot, and the last writer of the fleet define the same. */
  ghost predicate SameDefinitions(p: Platform, hosts: seq<ProxyHost>, labels: seq<string>) {
    forall h, i, g, j, k :: LastWriterFor(hosts, labels, h, i, k) && LastWriter(hosts, g, j, k) ==>
      |SnapshotHost(h).middlewares| == |h.middlewares| && FinalMw(p, SnapshotHost(h), i) == FinalMw(p, g, j)
  }

  // What the agent's definitions are.
  lemma AgentDefinitions(p: Platform, hosts: seq<ProxyHost>, labels: seq<string>, mine: seq<ProxyHost>, k: string)
    requires Listing(mine, AgentHosts(SnapshotHosts(hosts), labels), IsHttp)
    ensures k in AllMws(p, mine) <==> exists h, i :: LastWriterFor(hosts, labels, h, i, k)
    ensures k in AllMws(p, mine) <==> k in ReachedMwKeys(hosts, labels)
    ensures forall h, i :: LastWriterFor(hosts, labels, h, i, k) ==>
      0 <= i < |SnapshotHost(h).middlewares| && k in AllMws(p, mine) && AllMws(p, mine)[k] == FinalMw(p, SnapshotHost(h), i)
  {
    hide SnapshotHost, Selected, SnapshotHosts, AgentHosts, Key, MwKey, MwKeys, FinalMw, AllMws, LastWriter;
    var snapshot := AgentHosts(SnapshotHosts(hosts), labels);
    DefinedByLastWriter(p, snapshot, mine, k);
    forall h, i | LastWriterFor(hosts, labels, h, i, k)
      ensures 0 <= i < |SnapshotHost(h).middlewares| && k in AllMws(p, mine) && AllMws(p, mine)[k] == FinalMw(p, SnapshotHost(h), i)
    {
      LastWriterForIff(hosts, labels, h, i, k);
      SnapshotWrites(h, i, k);
    }
    if k in AllMws(p, mine) {
      var s, i :| LastWriter(snapshot, s, i, k);
      WriterListed(snapshot, mine, s, i, k);
      AgentMember(hosts, labels, s);
      var h :| h in hosts && Selected(h, labels) && s == SnapshotHost(h);
      SnapshotSelected(h, labels);
      LastWriterForIff(hosts, labels, h, i, k);
      WritesListed(h, i, k);
    }
    if k in ReachedMwKeys(hosts, labels) {
      var h :| h in hosts && Reaches(h, HTTP, labels) && k in MwKeys(h);
      var i := KeyIndex(h, k);
      SnapshotSelected(h, labels);
      SnapshotWrites(h, i, k);
      AgentMember(hosts, labels, SnapshotHost(h));
      assert SnapshotHost(h) in mine && WritesMw(SnapshotHost(h), i, k);
    }
  }

  lemma WritesListed(h: ProxyHost, i: int, k: string)
    requires WritesMw(h, i, k)
    ensures k in MwKeys(h)
  {
    assert MwKeys(h)[i] == k;
  }

  lemma KeyIndex(h: ProxyHost, k: string) returns (i: nat)
    requires k in MwKeys(h)
    ensures i < |h.middlewares| && k == MwKey(h, i) && WritesMw(h, i, k)
  {
    i :| i < |h.middlewares| && MwKeys(h)[i] == k;
  }

  lemma DefsRestricted(p: Platform, hosts: seq<ProxyHost>, labels: seq<string>, hs: seq<ProxyHost>, mine: seq<ProxyHost>)
    requires AgentSection(hosts, labels, hs, mine, HTTP)
    ensures var a, b, keys := AllMws(p, mine), AllMws(p, hs), ReachedMwKeys(hosts, labels);
      && a.Keys == b.Keys * keys
      && (a == Restrict(b, keys) <==> SameDefinitions(p, hosts, labels))
  {
    hide Key, MwKey, MwKeys, AllMws, FinalMw, SnapshotHost, SnapshotHosts, AgentHosts, Selected, LastWriter, LastWriterFor;
    var a, b, keys := AllMws(p, mine), AllMws(p, hs), ReachedMwKeys(hosts, labels);
    forall k ensures k in a <==> k in b && k in keys {
      AgentDefinitions(p, hosts, labels, mine, k);
      DefinedByLastWriter(p, hosts, hs, k);
      if k in keys {
        var h :| h in hosts && Reaches(h, HTTP, labels) && k in MwKeys(h);
        var i := KeyIndex(h, k);
        assert h in hs;
      }
    }
    assert Restrict(b, keys).Keys == a.Keys;
    if SameDefinitions(p, hosts, labels) {
      forall k | k in a ensures a[k] == b[k] {
        AgentDefinitions(p, hosts, labels, mine, k);
        DefinedByLastWriter(p, hosts, hs, k);
        var h, i :| LastWriterFor(hosts, labels, h, i, k);
        var g, j :| LastWriter(hosts, g, j, k);
      }
    }
    if a == Restrict(b, keys) {
      forall h, i, g, j, k | LastWriterFor(hosts, labels, h, i, k) && LastWriter(hosts, g, j, k)
        ensures 0 <= i < |SnapshotHost(h).middlewares| && |SnapshotHost(h).middlewares| == |h.middlewares|
        ensures 0 <= j < |g.middlewares| && FinalMw(p, SnapshotHost(h), i) == FinalMw(p, g, j)
      {
        AgentDefinitions(p, hosts, labels, mine, k);
        DefinedByLastWriter(p, hosts, hs, k);
        WriterListed(hosts, hs, g, j, k);
        SnapshotWrites(h, i, k);
        assert a[k] == b[k];
      }
    }
  }

  // ---------------------------------------------------------------- the theorem

  lemma EmissionSurvivesSnapshot(proto: Protocol)
    ensures SnapshotProof(RouterFor(proto)) && SnapshotProof(ServiceFor(proto))
  {
    forall h
      ensures RouterFor(proto)(SnapshotHost(h)) == RouterFor(proto)(h) && ServiceFor(proto)(SnapshotHost(h)) == ServiceFor(proto)(h)
    {
      SnapshotEmission(h, proto);
    }
  }

  /** How a section of an agent's document compares with the published one. */
  ghost predicate SectionFiltered(c: Compiled, mine: Compiled, hosts: seq<ProxyHost>, labels: seq<string>, proto: Protocol) {
    var s, keys := SectionOf(proto), ReachedKeys(hosts, proto, labels);
    var routers, services := SectionMap(c.config, s, "routers"), SectionMap(c.config, s, "services");
    var mineRouters, mineServices := SectionMap(mine.config, s, "routers"), SectionMap(mine.config, s, "services");
    && mineRouters.Keys == routers.Keys * keys && mineServices.Keys == services.Keys * keys
    && (mineRouters == Restrict(routers, keys) <==> NoneRevived(hosts, labels, proto))
    && (mineServices == Restrict(services, keys) <==> SameEntries(hosts, labels, proto, ServiceFor(proto)))
  }

  /** The configuration an agent gets has, in every section, exactly the names
      of the hosts that reach it, with no hypothesis on names. Its routers are
      the published ones restricted to these names exactly when the agent's list
      routes no host that is shadowed in the fleet; its services, exactly when
      the last hosts of each name have the same service; its middleware
      definitions, exactly when the last writers define the same. */
  lemma FilteringCommutes(p: Platform, hosts: seq<ProxyHost>, certs: seq<Certificate>, c: Compiled,
                          labels: seq<string>, mine: Compiled)
    requires CompilesTo(p, hosts, certs, Success(c))
    requires CompilesTo(p, AgentHosts(SnapshotHosts(hosts), labels), SnapshotCerts(certs), Success(mine))
    ensures forall proto :: Routed(proto) ==> SectionFiltered(c, mine, hosts, labels, proto)
    ensures var defs, keys := SectionMap(c.config, "http", "middlewares"), ReachedMwKeys(hosts, labels);
      && SectionMap(mine.config, "http", "middlewares").Keys == defs.Keys * keys
      && (SectionMap(mine.config, "http", "middlewares") == Restrict(defs, keys) <==> SameDefinitions(p, hosts, labels))
  {
    hide CompilesTo, Publishable, IsSortOf, FirstHostFault, DocumentOf, SectionMap, WriteAll, RouterFor, ServiceFor, Filter, SectionOf;
    hide ReachedKeys, AgentHosts, SnapshotHosts, SnapshotCerts, AllMws, ReachedMwKeys, Restrict, Listing, SnapshotProof;
    hide SameEntries, NoneRevived, SameDefinitions;
    var order, pool := CompiledParts(p, hosts, certs, c);
    var order', pool' := CompiledParts(p, AgentHosts(SnapshotHosts(hosts), labels), SnapshotCerts(certs), mine);
    forall proto | Routed(proto) ensures SectionFiltered(c, mine, hosts, labels, proto) {
      ListingOf(p, hosts, order, KeepFor(proto));
      ListingOf(p, AgentHosts(SnapshotHosts(hosts), labels), order', KeepFor(proto));
      SectionsAre(p, order, pool, proto);
      SectionsAre(p, order', pool', proto);
      EmissionSurvivesSnapshot(proto);
      MapRestricted(hosts, labels, Filter(order, KeepFor(proto)), Filter(order', KeepFor(proto)), proto, RouterFor(proto));
      MapRestricted(hosts, labels, Filter(order, KeepFor(proto)), Filter(order', KeepFor(proto)), proto, ServiceFor(proto));
      RoutersAgree(p, hosts, labels, Filter(order, KeepFor(proto)), Filter(order', KeepFor(proto)), proto);
    }
    ListingOf(p, hosts, order, IsHttp);
    ListingOf(p, AgentHosts(SnapshotHosts(hosts), labels), order', IsHttp);
    HttpDefs(p, order, pool);
    HttpDefs(p, order', pool');
    DefsRestricted(p, hosts, labels, Filter(order, IsHttp), Filter(order', IsHttp));
  }

  // A host for agents with the label k=v only, named after DASHED and sanitized alike.
  const HIDDEN := DOTTED.(labelSelector := "k=v")

  lemma ParsesOnePart()
    ensures Labels.Parsed("k=v") == Success(map["k" := "v"])
  {
    var part := "k=v";
    assert TrimSpace(part) == part && TrimSpace("k") == "k" && TrimSpace("v") == "v";
    SplitSingle(part, ',');
    CutFirst("k", '=', "v");
    assert "k" + ['='] + "v" == part;
    assert Labels.AddPart(map[], part) == Success(map["k" := "v"]);
    assert [part][0] == part && [part][1..] == [];
    assert Labels.AddParts(map["k" := "v"], []) == Success(map["k" := "v"]);
  }

  lemma HiddenSelector()
    ensures Selected(DASHED, []) && !Selected(HIDDEN, [])
  {
    ParsesOnePart();
    assert "k" in map["k" := "v"] && "k" !in Labels.Have([]);
  }

  lemma HiddenRevives()
    ensures !NoneRevived([DASHED, HIDDEN], [], HTTP) && PresentFor([DASHED, HIDDEN], [], HTTP, DASHED)
    ensures Shadowed([DASHED, HIDDEN], DASHED)
  {
    hide Selected;
    HiddenSelector();
    assert Sanitize("a.b") == "a-b" == Sanitize("a-b");
    assert "a-b"[1..] == "-b" && "a.b"[1..] == ".b";
    assert Less("a-b", "a.b") && HIDDEN in [DASHED, HIDDEN];
    LessTotal("a-b", "a-b");
    assert Shadowed([DASHED, HIDDEN], DASHED);
  }

  lemma HiddenCompiles(p: Platform) returns (c: Compiled)
    requires p.parseURL("http://u") == Some(("http", "u"))
    ensures CompilesTo(p, [DASHED, HIDDEN], [], Success(c))
  {
    hide CompilesTo, HostOk, Coexist, Publishable;
    DashedAndDotted(p);
    assert HostOk(p, HIDDEN) && Coexist(DASHED, HIDDEN) by { SelectorIsFree(p, DOTTED, DASHED, "k=v"); }
    TwoHosts(p, DASHED, HIDDEN);
    c := CompileSucceeds(p, [DASHED, HIDDEN], []);
  }

  // The validator does not look at selectors.
  lemma SelectorIsFree(p: Platform, h: ProxyHost, g: ProxyHost, selector: string)
    requires HostOk(p, h) && Coexist(g, h)
    ensures HostOk(p, h.(labelSelector := selector)) && Coexist(g, h.(labelSelector := selector))
  {
    assert EffectiveUpstreams(h.(labelSelector := selector)) == EffectiveUpstreams(h);
  }

  /** Filtering and compiling cannot be exchanged for every fleet: this one
      compiles and does not answer a request, while an agent without labels is
      served a document that does. The agent's routers are not the published
      ones restricted to the hosts that reach it. */
  lemma FilteringRevives(p: Platform) returns (c: Compiled, mine: Compiled)
    requires p.parseURL("http://u") == Some(("http", "u"))
    ensures CompilesTo(p, [DASHED, HIDDEN], [], Success(c))
    ensures CompilesTo(p, AgentHosts(SnapshotHosts([DASHED, HIDDEN]), []), SnapshotCerts([]), Success(mine))
    ensures SectionMap(mine.config, "http", "routers") !=
            Restrict(SectionMap(c.config, "http", "routers"), ReachedKeys([DASHED, HIDDEN], HTTP, []))
    ensures Answering(c.config, ToDomain("web", "x")) == {} && Key(DASHED) in Answering(mine.config, ToDomain("web", "x"))
  {
    hide CompilesTo, SectionMap, Restrict, ReachedKeys, NoneRevived, SameEntries, SameDefinitions, AgentHosts, SnapshotHosts, SnapshotCerts;
    hide Answering, RouteAt, Key, Shadowed, Selected, PresentFor;
    var q, fleet := ToDomain("web", "x"), [DASHED, HIDDEN];
    c := HiddenCompiles(p);
    mine := EveryAgentIsServable(p, fleet, [], c, []);
    HiddenRevives();
    FilteringCommutes(p, fleet, [], c, [], mine);
    assert SectionFiltered(c, mine, fleet, [], HTTP);
    RequestsReachTheirHost(p, fleet, [], c, q);
    assert forall h :: Present(fleet, h) ==> h == HIDDEN;
    assert Fold("x")[0] == 'x' && Fold("y")[0] == 'y';
    RequestsReachTheirHost(p, AgentHosts(SnapshotHosts(fleet), []), SnapshotCerts([]), mine, q);
    HiddenServed();
    PresentIff(fleet, [], HTTP, DASHED);
    SnapshotSelected(DASHED, []);
    assert Serves(AgentHosts(SnapshotHosts(fleet), []), q, SnapshotHost(DASHED));
  }

  lemma HiddenServed()
    ensures DASHED in [DASHED, HIDDEN] && Reaches(DASHED, HTTP, []) && Declares(ToDomain("web", "x"), SnapshotHost(DASHED))
  {
    HiddenSelector();
  }

  // ---------------------------------------------------------------- without collisions

  /** No two enabled hosts of one protocol emit under the same name. */
  ghost predicate CleanNames(hosts: seq<ProxyHost>) {
    forall a, b :: a in hosts && b in hosts && a.name != b.name && a.enabled && b.enabled && Proto(a) == Proto(b) ==>
      Key(a) != Key(b) && (IsHttp(a) ==> !ShareMwKey(a, b))
  }

  ghost predicate LosesNothing(hosts: seq<ProxyHost>, labels: seq<string>) {
    forall h, i :: h in hosts && Reaches(h, HTTP, labels) && 0 <= i < |h.middlewares| ==> !LosesEmptyObject(h.middlewares[i])
  }

  lemma CleanName(p: Platform, hosts: seq<ProxyHost>, g: ProxyHost, h: ProxyHost)
    requires Publishable(p, hosts) && CleanNames(hosts) && g in hosts && h in hosts && g.enabled && h.enabled
    requires Proto(g) == Proto(h) && Key(g) == Key(h)
    ensures g == h
  {
    hide Publishable, Key, ShareMwKey;
    if g != h { PairCoexists(p, hosts, g, h); }
  }

  lemma CleanIsUnshadowed(p: Platform, hosts: seq<ProxyHost>, h: ProxyHost)
    requires Publishable(p, hosts) && CleanNames(hosts) && h in hosts && h.enabled
    ensures !Shadowed(hosts, h)
  {
    hide Publishable, Key, CleanNames;
    LessTotal(h.name, h.name);
    if Shadowed(hosts, h) {
      var g :| g in hosts && g.enabled && Proto(g) == Proto(h) && Key(g) == Key(h) && Less(h.name, g.name);
      CleanName(p, hosts, g, h);
    }
  }

  lemma CleanSections(p: Platform, hosts: seq<ProxyHost>, labels: seq<string>, proto: Protocol)
    requires Publishable(p, hosts) && CleanNames(hosts)
    ensures NoneRevived(hosts, labels, proto) && SameEntries(hosts, labels, proto, ServiceFor(proto))
  {
    hide Publishable, Key, CleanNames, Selected, ServiceFor, Shadowed;
    forall h, g | PresentFor(hosts, labels, proto, h) && Present(hosts, g) && Proto(g) == proto && Key(g) == Key(h)
      ensures ServiceFor(proto)(h) == ServiceFor(proto)(g)
    {
      CleanName(p, hosts, g, h);
    }
    forall h | PresentFor(hosts, labels, proto, h) ensures !Shadowed(hosts, h) { CleanIsUnshadowed(p, hosts, h); }
  }

  lemma CleanWriters(p: Platform, hosts: seq<ProxyHost>, g: ProxyHost, j: int, h: ProxyHost, i: int, k: string)
    requires Publishable(p, hosts) && CleanNames(hosts) && g in hosts && h in hosts && g.enabled && h.enabled
    requires IsHttp(g) && IsHttp(h) && WritesMw(g, j, k) && WritesMw(h, i, k)
    ensures g == h && i == j
  {
    hide Publishable, Key, MwKey;
    assert ShareMwKey(g, h);
    if g != h { PairCoexists(p, hosts, g, h); }
    MwKeysDistinct(h, i, j);
  }

  lemma CleanDefinitions(p: Platform, hosts: seq<ProxyHost>, labels: seq<string>)
    requires Publishable(p, hosts) && CleanNames(hosts)
    requires forall h :: h in hosts && h.enabled && IsHttp(h) ==> Admissible(p, h.middlewares)
    ensures SameDefinitions(p, hosts, labels) <==> LosesNothing(hosts, labels)
  {
    hide Publishable, Key, MwKey, CleanNames, Selected, FinalMw, SnapshotHost, Admissible, WritesMw, LosesEmptyObject;
    hide LastWriter, LastWriterFor;
    if SameDefinitions(p, hosts, labels) {
      forall h, i | h in hosts && Reaches(h, HTTP, labels) && 0 <= i < |h.middlewares| ensures !LosesEmptyObject(h.middlewares[i]) {
        OnlyWriter(p, hosts, labels, h, i);
        SnapshotFinalMw(p, h, i);
      }
    }
    if LosesNothing(hosts, labels) {
      forall h, i, g, j, k | LastWriterFor(hosts, labels, h, i, k) && LastWriter(hosts, g, j, k)
        ensures 0 <= i < |SnapshotHost(h).middlewares| && |SnapshotHost(h).middlewares| == |h.middlewares|
        ensures 0 <= j < |g.middlewares| && FinalMw(p, SnapshotHost(h), i) == FinalMw(p, g, j)
      {
        CleanLast(p, hosts, labels, g, j, h, i, k);
        SnapshotFinalMw(p, h, i);
      }
    }
  }

  lemma CleanLast(p: Platform, hosts: seq<ProxyHost>, labels: seq<string>, g: ProxyHost, j: int, h: ProxyHost, i: int, k: string)
    requires Publishable(p, hosts) && CleanNames(hosts)
    requires LastWriterFor(hosts, labels, h, i, k) && LastWriter(hosts, g, j, k)
    ensures g == h && i == j && 0 <= i < |h.middlewares| && h in hosts && Reaches(h, HTTP, labels)
  {
    hide Publishable, Key, MwKey, CleanNames, Selected;
    CleanWriters(p, hosts, g, j, h, i, k);
  }

  lemma OnlyWriter(p: Platform, hosts: seq<ProxyHost>, labels: seq<string>, h: ProxyHost, i: nat)
    requires Publishable(p, hosts) && CleanNames(hosts) && h in hosts && Reaches(h, HTTP, labels) && i < |h.middlewares|
    ensures LastWriterFor(hosts, labels, h, i, MwKey(h, i)) && LastWriter(hosts, h, i, MwKey(h, i))
  {
    hide Publishable, Key, MwKey, CleanNames, Selected;
    LessTotal(h.name, h.name);
    var k := MwKey(h, i);
    assert WritesMw(h, i, k);
    forall x, m | x in hosts && x.enabled && IsHttp(x) && Less(h.name, x.name) ensures !WritesMw(x, m, k) {
      if WritesMw(x, m, k) { CleanWriters(p, hosts, x, m, h, i, k); }
    }
  }

  /** Without colliding names, the configuration an agent gets is the published
      one restricted to the hosts that reach it: routers and services of every
      protocol always, and middleware definitions exactly when none of those
      hosts has a verbatim middleware with an empty object (which the snapshot
      turns into null). */
  lemma CleanFilteringCommutes(p: Platform, hosts: seq<ProxyHost>, certs: seq<Certificate>, c: Compiled,
                               labels: seq<string>, mine: Compiled)
    requires CompilesTo(p, hosts, certs, Success(c))
    requires CompilesTo(p, AgentHosts(SnapshotHosts(hosts), labels), SnapshotCerts(certs), Success(mine))
    requires CleanNames(hosts)
    ensures forall proto :: Routed(proto) ==> var s, keys := SectionOf(proto), ReachedKeys(hosts, proto, labels);
      && SectionMap(mine.config, s, "routers") == Restrict(SectionMap(c.config, s, "routers"), keys)
      && SectionMap(mine.config, s, "services") == Restrict(SectionMap(c.config, s, "services"), keys)
    ensures SectionMap(mine.config, "http", "middlewares") ==
            Restrict(SectionMap(c.config, "http", "middlewares"), ReachedMwKeys(hosts, labels))
            <==> LosesNothing(hosts, labels)
  {
    hide CompilesTo, Publishable, IsSortOf, FirstHostFault, DocumentOf, SectionMap, Filter, SectionOf, ServiceFor;
    hide ReachedKeys, AgentHosts, SnapshotHosts, SnapshotCerts, ReachedMwKeys, Restrict, SameDefinitions, LosesNothing, CleanNames;
    hide SameEntries, NoneRevived, Admissible;
    var order, pool := CompiledParts(p, hosts, certs, c);
    HostsAdmissible(p, hosts, order);
    FilteringCommutes(p, hosts, certs, c, labels, mine);
    CleanDefinitions(p, hosts, labels);
    forall proto | Routed(proto) ensures var s, keys := SectionOf(proto), ReachedKeys(hosts, proto, labels);
      && SectionMap(mine.config, s, "routers") == Restrict(SectionMap(c.config, s, "routers"), keys)
      && SectionMap(mine.config, s, "services") == Restrict(SectionMap(c.config, s, "services"), keys)
    {
      assert SectionFiltered(c, mine, hosts, labels, proto);
      CleanSections(p, hosts, labels, proto);
    }
  }
}
