/** The sections of a compiled document, and its certificate pool. */
module Documents {
  import opened Wrappers
  import opened Json
  import opened Text
  import opened Model
  import opened Lists
  import opened Sorting
  import opened Middlewares
  import opened Validation
  import opened Compiler
  import opened Writers
  import opened References
  import opened Routing

  lemma SectionsOf(p: Platform, order: seq<ProxyHost>, pool: seq<Certificate>)
    ensures var doc := FieldsOf(DocumentOf(p, order, pool));
      && doc.Keys <= {"http", "tcp", "udp", "tls"} && "http" in doc
      && ("tcp" in doc <==> Filter(order, IsTcp) != []) && ("udp" in doc <==> Filter(order, IsUdp) != [])
      && ("tls" in doc <==> pool != [])
      && ("tls" in doc ==> doc["tls"] == CertPool(pool))
      && ("tcp" in doc ==> FieldsOf(doc["tcp"]).Keys == {"routers", "services"})
      && ("udp" in doc ==> FieldsOf(doc["udp"]).Keys == {"routers", "services"})
      && doc["http"] == HttpSection(HttpMapsOf(p, Filter(order, IsHttp)))
  {
    hide HttpSection, HttpMapsOf, CertPool, Filter, WriteAll;
    SectionKeysDistinct();
  }

  lemma SomeDefinitions(p: Platform, hs: seq<ProxyHost>)
    ensures AllMws(p, hs) != map[] <==> exists h :: h in hs && h.middlewares != []
  {
    hide AllMws, MwKey;
    if k :| k in AllMws(p, hs) {
      AllMwsAt(p, hs, k);
      var n, i :| 0 <= n < |hs| && WritesMw(hs[n], i, k);
      assert hs[n] in hs && hs[n].middlewares != [];
    }
    if h :| h in hs && h.middlewares != [] {
      var n :| 0 <= n < |hs| && hs[n] == h;
      assert WritesMw(hs[n], 0, MwKey(h, 0));
      AllMwsAt(p, hs, MwKey(h, 0));
    }
  }

  lemma EnabledOfKind(hosts: seq<ProxyHost>, order: seq<ProxyHost>, keep: ProxyHost -> bool)
    requires IsSortOf(order, Filter(hosts, IsEnabled), HostName)
    ensures Filter(order, keep) != [] <==> exists h :: h in hosts && h.enabled && keep(h)
    ensures forall h :: h in Filter(order, keep) <==> h in hosts && h.enabled && keep(h)
  {
    forall h ensures h in order <==> h in hosts && h.enabled {
      assert h in order <==> h in multiset(order);
      assert h in Filter(hosts, IsEnabled) <==> h in multiset(Filter(hosts, IsEnabled));
    }
    if Filter(order, keep) != [] { assert Filter(order, keep)[0] in Filter(order, keep); }
    if h :| h in hosts && h.enabled && keep(h) { assert h in Filter(order, keep); }
  }

  /** A compiled document has an http section always, with middlewares exactly when
      an enabled HTTP host has some; a tcp or udp section exactly when an enabled
      host has that protocol; a tls section exactly when there are certificates;
      and nothing else. */
  lemma DocumentSections(p: Platform, hosts: seq<ProxyHost>, certs: seq<Certificate>, c: Compiled)
    requires CompilesTo(p, hosts, certs, Success(c))
    ensures c.config.Obj? && c.config.fields.Keys <= {"http", "tcp", "udp", "tls"} && "http" in c.config.fields
    ensures "tcp" in c.config.fields <==> exists h :: h in hosts && h.enabled && h.protocol == TCP
    ensures "udp" in c.config.fields <==> exists h :: h in hosts && h.enabled && h.protocol == UDP
    ensures "tls" in c.config.fields <==> certs != []
    ensures var http := FieldsOf(c.config.fields["http"]);
      {"routers", "services"} <= http.Keys <= {"routers", "services", "middlewares"} &&
      ("middlewares" in http <==> exists h :: h in hosts && h.enabled && h.protocol in {HTTP, Unset} && h.middlewares != [])
    ensures "tcp" in c.config.fields ==> FieldsOf(c.config.fields["tcp"]).Keys == {"routers", "services"}
    ensures "udp" in c.config.fields ==> FieldsOf(c.config.fields["udp"]).Keys == {"routers", "services"}
  {
    hide CompilesTo, IsSortOf, DocumentOf, Filter, CertPool, WriteAll, AllMws, FirstHostFault, Validation.Publishable;
    var order, pool := CompiledParts(p, hosts, certs, c);
    SectionsOf(p, order, pool);
    SectionKeysDistinct();
    EnabledOfKind(hosts, order, IsHttp);
    SomeDefinitions(p, Filter(order, IsHttp));
    EnabledOfKind(hosts, order, IsTcp);
    EnabledOfKind(hosts, order, IsUdp);
    SameLength(pool, certs);
  }

  lemma SameLength(pool: seq<Certificate>, certs: seq<Certificate>)
    requires IsSortOf(pool, certs, CertName)
    ensures |pool| == |certs|
  {
    assert |pool| == |multiset(pool)| == |multiset(certs)| == |certs|;
  }

  /** The pool of a compiled document lists every certificate once, by rising
      name, with its own certificate and key text. */
  lemma PoolIsTheCertificates(p: Platform, hosts: seq<ProxyHost>, certs: seq<Certificate>, c: Compiled)
    returns (pool: seq<Certificate>)
    requires CompilesTo(p, hosts, certs, Success(c)) && certs != []
    ensures multiset(pool) == multiset(certs) && forall i, j :: 0 <= i < j < |pool| ==> !Less(pool[j].name, pool[i].name)
    ensures var tls := Sub(c.config, "tls");
      && tls.Keys == {"certificates"} && tls["certificates"].Arr? && |tls["certificates"].items| == |pool|
      && forall i :: 0 <= i < |pool| ==>
           tls["certificates"].items[i] == Obj(map["certFile" := Str(pool[i].certPEM), "keyFile" := Str(pool[i].keyPEM)])
  {
    hide CompilesTo, DocumentOf, Filter, HttpMapsOf, FirstHostFault, Validation.Publishable;
    var order;
    order, pool := CompiledParts(p, hosts, certs, c);
    SameLength(pool, certs);
    SectionsOf(p, order, pool);
    forall i, j | 0 <= i < j < |pool| ensures !Less(pool[j].name, pool[i].name) {
      assert Leq(CertName(pool[i]), CertName(pool[j]));
    }
  }

  // ---------------------------------------------------------------- when nothing is compiled

  // Host n of the list is the first with a fault.
  lemma {:induction false} FaultIsFirst(p: Platform, hs: seq<ProxyHost>) returns (n: nat)
    requires FirstHostFault(p, hs).Some?
    ensures n < |hs| && HostFault(p, hs[n]) == FirstHostFault(p, hs)
    ensures forall m :: 0 <= m < n ==> HostFault(p, hs[m]).None?
  {
    hide HostFault;
    var init := hs[..|hs| - 1];
    if FirstHostFault(p, init).Some? {
      n := FaultIsFirst(p, init);
    } else {
      n := |hs| - 1;
      NoHostFault(p, init);
      assert forall m :: 0 <= m < n ==> init[m] == hs[m];
    }
  }

  // What the error says of the host it names.
  ghost predicate IsFaultOf(p: Platform, h: ProxyHost, e: CompileError) {
    match e
    case Invalid(_) => false
    case BadMiddleware(host, mw, cause) => host == h.name && exists i :: FirstBad(p, h.middlewares, i, mw, cause)
    case UnknownChainTarget(host, mw, target) =>
      host == h.name && AllRender(p, h.middlewares) && exists i :: FirstBroken(h.middlewares, h.middlewares, i, mw, target)
  }

  lemma HostFaultSays(p: Platform, h: ProxyHost)
    requires HostFault(p, h).Some?
    ensures IsFaultOf(p, h, HostFault(p, h).value)
  {
    hide FirstBad, FirstBroken, FirstRenderError, FirstChainError, Render;
    if FirstRenderError(p, h.middlewares).Some? {
      var i := RenderErrorIsFirst(p, h.middlewares);
    } else {
      NoRenderError(p, h.middlewares);
      var i := ChainErrorIsFirst(h.middlewares, h.middlewares);
    }
  }

  // The host is at fault, and no enabled HTTP host named before it is.
  ghost predicate FirstAtFault(p: Platform, hosts: seq<ProxyHost>, h: ProxyHost, e: CompileError) {
    && h in hosts && h.enabled && (h.protocol == HTTP || h.protocol == Unset) && IsFaultOf(p, h, e)
    && forall g :: g in hosts && g.enabled && (g.protocol == HTTP || g.protocol == Unset) && Less(g.name, h.name) ==>
         Admissible(p, g.middlewares)
  }

  lemma InNameOrder(hs: seq<ProxyHost>, n: int, m: int)
    requires SortedBy(hs, HostName) && 0 <= n < m < |hs|
    ensures !Less(hs[m].name, hs[n].name)
  {
    assert Leq(HostName(hs[n]), HostName(hs[m]));
  }

  lemma FaultInOrder(p: Platform, hosts: seq<ProxyHost>, hs: seq<ProxyHost>) returns (h: ProxyHost)
    requires Listing(hs, hosts, IsHttp) && FirstHostFault(p, hs).Some?
    ensures FirstAtFault(p, hosts, h, FirstHostFault(p, hs).value)
  {
    hide HostFault, FirstHostFault, IsFaultOf, Admissible;
    var n := FaultIsFirst(p, hs);
    h := hs[n];
    assert h in hs;
    HostFaultSays(p, h);
    forall g | g in hosts && g.enabled && (g.protocol == HTTP || g.protocol == Unset) && Less(g.name, h.name)
      ensures Admissible(p, g.middlewares)
    {
      assert g in hs;
      var m :| 0 <= m < |hs| && hs[m] == g;
      LessTotal(g.name, h.name);
      if n < m { InNameOrder(hs, n, m); }
      HostFaultExact(p, g);
    }
  }

  /** A failed compile either lists validation's errors, or names the first
      enabled HTTP host, by name, with a middleware that cannot be emitted. */
  lemma CompileErrorIsTrue(p: Platform, hosts: seq<ProxyHost>, certs: seq<Certificate>, e: CompileError)
    requires CompilesTo(p, hosts, certs, Failure(e))
    ensures if AllErrors(p, hosts) != [] then e == Invalid(AllErrors(p, hosts))
            else exists h :: FirstAtFault(p, hosts, h, e)
  {
    hide AllErrors, Publishable, FirstHostFault, DocumentOf, FirstAtFault, Filter, IsSortOf, Listing;
    if AllErrors(p, hosts) == [] {
      ValidateExact(p, hosts);
      var order, pool :| IsSortOf(order, Filter(hosts, IsEnabled), HostName) && IsSortOf(pool, certs, CertName) &&
        Emit(p, order, pool) == Failure(e);
      ListingOf(p, hosts, order, IsHttp);
      var h := FaultInOrder(p, hosts, Filter(order, IsHttp));
    }
  }
}
