/** Every name a compiled configuration mentions is defined in it. */
module References {
  import opened Wrappers
  import opened Json
  import opened Model
  import opened Lists
  import opened Middlewares
  import opened Compiler
  import opened Writers

  ghost function SectionMap(doc: Value, section: string, part: string): Object {
    Sub(Obj(Sub(doc, section)), part)
  }

  // A list of names in a router or chain that are all keys of a map.
  ghost predicate NamesIn(v: Value, defined: Object) {
    StringList(v).Some? && forall x :: x in StringList(v).value ==> x in defined
  }

  ghost predicate RouterClosed(router: Value, services: Object, middlewares: Object) {
    && router.Obj? && "service" in router.fields && router.fields["service"].Str?
    && router.fields["service"].s in services
    && ("middlewares" in router.fields ==> NamesIn(router.fields["middlewares"], middlewares))
  }

  ghost predicate DefinitionClosed(mw: Value, middlewares: Object) {
    ReadType(mw) == Some(Chain) ==>
      ReadBehaviour(mw).Some? && ReadBehaviour(mw).value.InOrder? &&
      forall x :: x in ReadBehaviour(mw).value.names ==> x in middlewares
  }

  ghost predicate SectionClosed(routers: Object, services: Object, middlewares: Object) {
    && (forall k :: k in routers ==> RouterClosed(routers[k], services, middlewares))
    && (forall k :: k in middlewares ==> DefinitionClosed(middlewares[k], middlewares))
  }

  /** Reference closure of a whole document, section by section. */
  ghost predicate DocumentClosed(doc: Value) {
    && SectionClosed(SectionMap(doc, "http", "routers"), SectionMap(doc, "http", "services"), SectionMap(doc, "http", "middlewares"))
    && SectionClosed(SectionMap(doc, "tcp", "routers"), SectionMap(doc, "tcp", "services"), map[])
    && SectionClosed(SectionMap(doc, "udp", "routers"), SectionMap(doc, "udp", "services"), map[])
  }

  lemma SectionKeysDistinct()
    ensures "http" != "tcp" && "http" != "udp" && "http" != "tls" && "tcp" != "udp" && "tcp" != "tls" && "udp" != "tls"
    ensures "routers" != "services" && "routers" != "middlewares" && "services" != "middlewares"
  {
    assert "tcp"[0] == 't' && "udp"[0] == 'u' && "tcp"[1] == 'c' && "tls"[1] == 'l';
    assert "routers"[0] == 'r' && "services"[0] == 's' && "middlewares"[0] == 'm';
  }

  // The document before its optional sections are added.
  lemma HttpOf(http: HttpMaps, tcp: seq<ProxyHost>, udp: seq<ProxyHost>, pool: seq<Certificate>)
    ensures Sub(Document(http, tcp, udp, pool), "http") == HttpSection(http).fields
  {
    hide HttpSection, L4Section, CertPool;
    SectionKeysDistinct();
    SectionIsObject(http);
  }

  lemma TcpOf(http: HttpMaps, tcp: seq<ProxyHost>, udp: seq<ProxyHost>, pool: seq<Certificate>)
    ensures Sub(Document(http, tcp, udp, pool), "tcp") == if tcp != [] then L4Section(tcp, TcpRouter).fields else map[]
  {
    hide HttpSection, WriteAll, CertPool;
    SectionKeysDistinct();
  }

  lemma UdpOf(http: HttpMaps, tcp: seq<ProxyHost>, udp: seq<ProxyHost>, pool: seq<Certificate>)
    ensures Sub(Document(http, tcp, udp, pool), "udp") == if udp != [] then L4Section(udp, UdpRouter).fields else map[]
  {
    hide HttpSection, WriteAll, CertPool;
    SectionKeysDistinct();
  }

  lemma SectionIsObject(http: HttpMaps)
    ensures HttpSection(http).Obj?
  {
  }

  lemma PartsOf(http: HttpMaps, hosts: seq<ProxyHost>, router: ProxyHost -> Value)
    ensures Sub(HttpSection(http), "routers") == http.routers
    ensures Sub(HttpSection(http), "services") == http.services
    ensures Sub(HttpSection(http), "middlewares") == http.middlewares
    ensures Sub(L4Section(hosts, router), "routers") == WriteAll(hosts, router)
    ensures Sub(L4Section(hosts, router), "services") == WriteAll(hosts, L4Service)
  {
    hide WriteAll;
    SectionKeysDistinct();
  }

  // Reading back the parts that a document was assembled from.
  lemma DocumentParts(http: HttpMaps, tcp: seq<ProxyHost>, udp: seq<ProxyHost>, pool: seq<Certificate>)
    ensures var doc := Document(http, tcp, udp, pool);
      && SectionMap(doc, "http", "routers") == http.routers
      && SectionMap(doc, "http", "services") == http.services
      && SectionMap(doc, "http", "middlewares") == http.middlewares
      && SectionMap(doc, "tcp", "routers") == WriteAll(tcp, TcpRouter)
      && SectionMap(doc, "tcp", "services") == WriteAll(tcp, L4Service)
      && SectionMap(doc, "udp", "routers") == WriteAll(udp, UdpRouter)
      && SectionMap(doc, "udp", "services") == WriteAll(udp, L4Service)
  {
    hide Document, HttpSection, L4Section, Key;
    HttpOf(http, tcp, udp, pool);
    TcpOf(http, tcp, udp, pool);
    UdpOf(http, tcp, udp, pool);
    PartsOf(http, tcp, TcpRouter);
    PartsOf(http, udp, UdpRouter);
    ObjectSections(http, tcp, TcpRouter);
    ObjectSections(http, udp, UdpRouter);
  }

  lemma ObjectSections(http: HttpMaps, hosts: seq<ProxyHost>, router: ProxyHost -> Value)
    ensures HttpSection(http).Obj? && L4Section(hosts, router).Obj?
  {
  }

  lemma HttpRouterNames(h: ProxyHost)
    ensures var r := HttpRouter(h);
      && r.Obj? && "service" in r.fields && r.fields["service"] == Str(Key(h))
      && ("middlewares" in r.fields ==> StringList(r.fields["middlewares"]) == Some(MwKeys(h)))
  {
    hide MwKeys, Key, RuleFor, EntryPointsOr;
    assert |"rule"| == 4 && |"entryPoints"| == 11 && |"service"| == 7 && |"middlewares"| == 11 && |"tls"| == 3;
    assert "entryPoints"[0] == 'e' && "middlewares"[0] == 'm';
    StringsRoundTrip(MwKeys(h));
  }

  lemma L4RouterNames(h: ProxyHost)
    ensures var r := TcpRouter(h); r.Obj? && "service" in r.fields && r.fields["service"] == Str(Key(h)) && "middlewares" !in r.fields
    ensures var r := UdpRouter(h); r.Obj? && "service" in r.fields && r.fields["service"] == Str(Key(h)) && "middlewares" !in r.fields
  {
    hide Key, RuleFor, EntryPointsOr;
    assert |"rule"| == 4 && |"entryPoints"| == 11 && |"service"| == 7 && |"middlewares"| == 11 && |"tls"| == 3;
    assert "entryPoints"[0] == 'e' && "middlewares"[0] == 'm';
  }

  lemma OwnMwDefined(p: Platform, hosts: seq<ProxyHost>, n: nat, i: nat)
    requires n < |hosts| && i < |hosts[n].middlewares|
    ensures MwKey(hosts[n], i) in AllMws(p, hosts)
  {
    hide MwKey, AllMws;
    AllMwsAt(p, hosts, MwKey(hosts[n], i));
    assert WritesMw(hosts[n], i, MwKey(hosts[n], i));
  }

  // Each entry of an emitted chain is a mangled name of the same host.
  lemma FinalMwRead(p: Platform, h: ProxyHost, i: nat)
    requires Admissible(p, h.middlewares) && i < |h.middlewares|
    ensures ReadType(FinalMw(p, h, i)) == Some(h.middlewares[i].kind)
    ensures h.middlewares[i].kind == Chain ==>
      ReadBehaviour(FinalMw(p, h, i)) == Some(InOrder(Targets(h, RefsOf(h.middlewares[i]))))
    ensures h.middlewares[i].kind != Chain ==>
      Servable(h.middlewares[i]) && ReadBehaviour(FinalMw(p, h, i)) == Some(Asked(p, h.middlewares[i]))
  {
    hide Render, ReadType, ReadBehaviour, Targets, RefsOf, Servable, Asked, Wrap;
    var mw := h.middlewares[i];
    RenderPreservesBehaviour(p, mw);
    if mw.kind == Chain {
      var names := Targets(h, RefsOf(mw));
      ReadWrapped(Chain, ChainBody(names));
      StringsRoundTrip(names);
    }
  }

  lemma TargetsAreOwnKeys(p: Platform, h: ProxyHost, i: nat, k: nat)
    requires Admissible(p, h.middlewares) && i < |h.middlewares| && h.middlewares[i].kind == Chain
    requires k < |RefsOf(h.middlewares[i])|
    ensures var refs := RefsOf(h.middlewares[i]); var j := LastNamed(h.middlewares, refs[k]);
      j.Some? && Targets(h, refs)[k] == MwKey(h, j.value)
  {
    hide MwKey, RefsOf, LastNamed;
  }

  lemma HttpClosed(p: Platform, hosts: seq<ProxyHost>)
    requires FirstHostFault(p, hosts).None?
    ensures var m := HttpMapsOf(p, hosts); SectionClosed(m.routers, m.services, m.middlewares)
  {
    hide HttpRouter, HttpService, MwKey, FinalMw, AllMws, WriteAll, FirstHostFault, HostFault, Admissible, RefsOf, LastNamed;
    hide ReadType, ReadBehaviour;
    var m := HttpMapsOf(p, hosts);
    NoHostFault(p, hosts);
    forall k | k in m.routers ensures RouterClosed(m.routers[k], m.services, m.middlewares) {
      WriteAllAt(hosts, HttpRouter, k);
      WriteAllAt(hosts, HttpService, k);
      var n0 :| 0 <= n0 < |hosts| && Key(hosts[n0]) == k;
      var n := SomeLastKeyed(hosts, n0, k);
      HttpRouterNames(hosts[n]);
      forall x | x in MwKeys(hosts[n]) ensures x in m.middlewares {
        var i :| 0 <= i < |hosts[n].middlewares| && x == MwKey(hosts[n], i);
        OwnMwDefined(p, hosts, n, i);
      }
    }
    forall k | k in m.middlewares ensures DefinitionClosed(m.middlewares[k], m.middlewares) {
      AllMwsAt(p, hosts, k);
      var n0, i0 :| 0 <= n0 < |hosts| && WritesMw(hosts[n0], i0, k);
      var n, i := SomeLastMw(hosts, n0, i0, k);
      var h := hosts[n];
      HostFaultExact(p, h);
      FinalMwRead(p, h, i);
      if h.middlewares[i].kind == Chain {
        var refs := RefsOf(h.middlewares[i]);
        forall x | x in Targets(h, refs) ensures x in m.middlewares {
          var t :| 0 <= t < |refs| && Targets(h, refs)[t] == x;
          TargetsAreOwnKeys(p, h, i, t);
          OwnMwDefined(p, hosts, n, LastNamed(h.middlewares, refs[t]).value);
        }
      }
    }
  }

  lemma L4Closed(hosts: seq<ProxyHost>, router: ProxyHost -> Value)
    requires router == TcpRouter || router == UdpRouter
    ensures SectionClosed(WriteAll(hosts, router), WriteAll(hosts, L4Service), map[])
  {
    hide TcpRouter, UdpRouter, L4Service, Key, WriteAll;
    forall k | k in WriteAll(hosts, router)
      ensures RouterClosed(WriteAll(hosts, router)[k], WriteAll(hosts, L4Service), map[])
    {
      WriteAllAt(hosts, router, k);
      WriteAllAt(hosts, L4Service, k);
      var n0 :| 0 <= n0 < |hosts| && Key(hosts[n0]) == k;
      var n := SomeLastKeyed(hosts, n0, k);
      L4RouterNames(hosts[n]);
    }
  }

  /** In every successful compile each router's service and middlewares, and
      every entry of every emitted chain, are keys of the output, with no
      hypothesis on names. */
  lemma CompiledReferencesClosed(p: Platform, hosts: seq<ProxyHost>, certs: seq<Certificate>, c: Compiled)
    requires CompilesTo(p, hosts, certs, Success(c))
    ensures DocumentClosed(c.config)
  {
    hide Validation.AllErrors, FirstHostFault, DocumentOf, Emit;
    var order, pool :| Emit(p, order, pool) == Success(c);
    EmitSucceeds(p, order, pool);
    EmittedClosed(p, order, pool);
  }

  lemma EmitSucceeds(p: Platform, order: seq<ProxyHost>, pool: seq<Certificate>)
    ensures Emit(p, order, pool).Success? <==> FirstHostFault(p, Filter(order, IsHttp)).None?
    ensures Emit(p, order, pool).Success? ==> Emit(p, order, pool).value.config == DocumentOf(p, order, pool)
    ensures Emit(p, order, pool).Success? ==> Emit(p, order, pool).value.etag == EtagOf(p, Emit(p, order, pool).value.config)
  {
    hide FirstHostFault, DocumentOf;
  }

  lemma EmittedClosed(p: Platform, order: seq<ProxyHost>, pool: seq<Certificate>)
    requires FirstHostFault(p, Filter(order, IsHttp)).None?
    ensures DocumentClosed(DocumentOf(p, order, pool))
  {
    hide FirstHostFault, Document, SectionClosed, WriteAll, SectionMap, AllMws;
    var http, tcp, udp := Filter(order, IsHttp), Filter(order, IsTcp), Filter(order, IsUdp);
    DocumentParts(HttpMapsOf(p, http), tcp, udp, pool);
    HttpClosed(p, http);
    L4Closed(tcp, TcpRouter);
    L4Closed(udp, UdpRouter);
  }
}
