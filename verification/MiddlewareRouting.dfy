/** The middlewares behind a compiled router, unrolled through chains, compared
    with what the host asked for. */
module MiddlewareRouting {
  import opened Wrappers
  import opened Text
  import opened Json
  import opened Model
  import opened Lists
  import opened Sorting
  import opened Middlewares
  import opened Validation
  import opened Compiler
  import opened Writers
  import opened References
  import opened Routing

  /** A middleware unrolled to some depth: chains may be cyclic, so the
      unrolling is cut. */
  datatype MwTree = Cut | Missing | Step(behaviour: Behaviour) | InSequence(items: seq<MwTree>)

  /** The i-th middleware as its host means it: a chain entry stands for the
      last middleware of the host with that raw name. */
  ghost function WantedMw(p: Platform, h: ProxyHost, i: nat, depth: nat): MwTree
    requires i < |h.middlewares|
    decreases depth
  {
    if depth == 0 then Cut
    else if !Servable(h.middlewares[i]) then Missing
    else match Asked(p, h.middlewares[i])
      case InOrder(names) =>
        InSequence(seq(|names|, k requires 0 <= k < |names| =>
          match LastNamed(h.middlewares, names[k])
          case Some(j) => WantedMw(p, h, j, depth - 1)
          case None => Missing))
      case b => Step(b)
  }

  /** A definition as Traefik unrolls it from the document. */
  ghost function EmittedMw(defs: Object, key: string, depth: nat): MwTree
    decreases depth
  {
    if depth == 0 then Cut
    else if key !in defs then Missing
    else match ReadBehaviour(defs[key])
      case None => Missing
      case Some(InOrder(names)) =>
        InSequence(seq(|names|, k requires 0 <= k < |names| => EmittedMw(defs, names[k], depth - 1)))
      case Some(b) => Step(b)
  }

  // ---------------------------------------------------------------- who defines a mangled name

  /** Of the enabled HTTP hosts with a middleware of this mangled name, the one
      named last. */
  ghost predicate LastWriter(hosts: seq<ProxyHost>, g: ProxyHost, j: int, k: string) {
    && g in hosts && g.enabled && IsHttp(g) && WritesMw(g, j, k)
    && forall x, m :: x in hosts && x.enabled && IsHttp(x) && Less(g.name, x.name) ==> !WritesMw(x, m, k)
  }

  /** A middleware's definition survives: the last host that writes its mangled
      name writes the same definition. */
  ghost predicate InPlace(p: Platform, hosts: seq<ProxyHost>, h: ProxyHost, i: nat)
    requires i < |h.middlewares|
  {
    forall g, j :: LastWriter(hosts, g, j, MwKey(h, i)) ==> FinalMw(p, g, j) == FinalMw(p, h, i)
  }

  lemma NamedLater(hs: seq<ProxyHost>, n: nat, l: nat)
    requires SortedBy(hs, HostName) && n < |hs| && l < |hs| && Less(hs[n].name, hs[l].name)
    ensures n < l
  {
    LessTotal(hs[n].name, hs[l].name);
    assert l < n ==> Leq(HostName(hs[l]), HostName(hs[n]));
  }

  lemma LastWriterIff(hosts: seq<ProxyHost>, hs: seq<ProxyHost>, n: nat, j: int, k: string)
    requires Listing(hs, hosts, IsHttp) && n < |hs|
    ensures LastMw(hs, n, j, k) <==> LastWriter(hosts, hs[n], j, k)
  {
    hide WritesMw;
    assert hs[n] in hs;
    if LastMw(hs, n, j, k) {
      forall x, m | x in hosts && x.enabled && IsHttp(x) && Less(hs[n].name, x.name) ensures !WritesMw(x, m, k) {
        assert x in hs;
        var l :| 0 <= l < |hs| && hs[l] == x;
        NamedLater(hs, n, l);
      }
    }
    if LastWriter(hosts, hs[n], j, k) {
      forall l, m | n < l < |hs| ensures !WritesMw(hs[l], m, k) {
        assert hs[l] in hs && Leq(HostName(hs[n]), HostName(hs[l])) && HostName(hs[n]) != HostName(hs[l]);
        LessTotal(hs[n].name, hs[l].name);
      }
    }
  }

  lemma WriterListed(hosts: seq<ProxyHost>, hs: seq<ProxyHost>, g: ProxyHost, j: int, k: string)
    requires Listing(hs, hosts, IsHttp) && LastWriter(hosts, g, j, k)
    ensures g in hs && 0 <= j < |g.middlewares|
  {
  }

  /** The definitions of a compiled fleet are those of the last writers. */
  lemma DefinedByLastWriter(p: Platform, hosts: seq<ProxyHost>, hs: seq<ProxyHost>, k: string)
    requires Listing(hs, hosts, IsHttp)
    ensures k in AllMws(p, hs) <==> exists g, j :: LastWriter(hosts, g, j, k)
    ensures k in AllMws(p, hs) <==> exists h, i :: h in hs && WritesMw(h, i, k)
    ensures forall g, j :: LastWriter(hosts, g, j, k) ==> k in AllMws(p, hs) && AllMws(p, hs)[k] == FinalMw(p, g, j)
  {
    hide AllMws, FinalMw, MwKey, WritesMw, LastMw;
    AllMwsAt(p, hs, k);
    forall g, j | LastWriter(hosts, g, j, k)
      ensures 0 <= j < |g.middlewares| && k in AllMws(p, hs) && AllMws(p, hs)[k] == FinalMw(p, g, j)
    {
      WriterListed(hosts, hs, g, j, k);
      var n :| 0 <= n < |hs| && hs[n] == g;
      LastWriterIff(hosts, hs, n, j, k);
    }
    if SomeoneWrites(hs, k) {
      var m, j :| 0 <= m < |hs| && WritesMw(hs[m], j, k);
      assert hs[m] in hs;
      NonNegative(hs[m], j, k);
      var n, i := SomeLastMw(hs, m, j, k);
      LastInRange(hs, n, i, k);
      LastWriterIff(hosts, hs, n, i, k);
    }
    if h, i :| h in hs && WritesMw(h, i, k) {
      var n :| 0 <= n < |hs| && hs[n] == h;
      assert SomeoneWrites(hs, k);
    }
  }

  lemma LastInRange(hs: seq<ProxyHost>, n: int, i: int, k: string)
    requires LastMw(hs, n, i, k)
    ensures 0 <= n < |hs|
  {
  }

  lemma InPlaceIff(p: Platform, hosts: seq<ProxyHost>, hs: seq<ProxyHost>, h: ProxyHost, i: nat)
    requires Listing(hs, hosts, IsHttp) && h in hs && i < |h.middlewares|
    ensures MwKey(h, i) in AllMws(p, hs)
    ensures AllMws(p, hs)[MwKey(h, i)] == FinalMw(p, h, i) <==> InPlace(p, hosts, h, i)
  {
    hide AllMws, FinalMw, MwKey, LastWriter, Listing;
    assert WritesMw(h, i, MwKey(h, i));
    DefinedByLastWriter(p, hosts, hs, MwKey(h, i));
  }

  lemma AskedChain(p: Platform, mw: Middleware)
    requires Servable(mw)
    ensures Asked(p, mw).InOrder? <==> mw.kind == Chain
    ensures mw.kind == Chain ==> Asked(p, mw) == InOrder(RefsOf(mw))
  {
  }

  // ---------------------------------------------------------------- what a definition means

  // Middleware i of the host is a chain with an entry that stands for middleware j.
  ghost predicate TargetOf(h: ProxyHost, i: nat, j: nat)
    requires i < |h.middlewares|
  {
    j < |h.middlewares| && h.middlewares[i].kind == Chain &&
    exists k :: 0 <= k < |RefsOf(h.middlewares[i])| && LastNamed(h.middlewares, RefsOf(h.middlewares[i])[k]) == Some(j)
  }

  /** The definitions that middleware i leads to, up to a depth, all survive. */
  ghost predicate AllInPlace(p: Platform, hosts: seq<ProxyHost>, h: ProxyHost, i: nat, depth: nat)
    requires i < |h.middlewares|
    decreases depth
  {
    depth == 0 ||
    (InPlace(p, hosts, h, i) && forall j: nat :: TargetOf(h, i, j) ==> AllInPlace(p, hosts, h, j, depth - 1))
  }

  // The same for the chains among them.
  ghost predicate ChainsInPlace(p: Platform, hosts: seq<ProxyHost>, h: ProxyHost, i: nat, depth: nat)
    requires i < |h.middlewares|
    decreases depth
  {
    depth == 0 || h.middlewares[i].kind != Chain ||
    (InPlace(p, hosts, h, i) && forall j: nat :: TargetOf(h, i, j) ==> ChainsInPlace(p, hosts, h, j, depth - 1))
  }

  lemma {:induction false} AllMeansChains(p: Platform, hosts: seq<ProxyHost>, h: ProxyHost, i: nat, depth: nat)
    requires i < |h.middlewares| && AllInPlace(p, hosts, h, i, depth)
    ensures ChainsInPlace(p, hosts, h, i, depth)
    decreases depth
  {
    hide InPlace, TargetOf;
    if depth > 0 {
      forall j: nat | TargetOf(h, i, j) ensures j < |h.middlewares| && ChainsInPlace(p, hosts, h, j, depth - 1) {
        TargetInRange(h, i, j);
        AllMeansChains(p, hosts, h, j, depth - 1);
      }
    }
  }

  lemma TargetInRange(h: ProxyHost, i: nat, j: nat)
    requires i < |h.middlewares| && TargetOf(h, i, j)
    ensures j < |h.middlewares|
  {
  }

  ghost predicate AllAdmissible(p: Platform, hs: seq<ProxyHost>) {
    forall h :: h in hs ==> Admissible(p, h.middlewares)
  }

  // A middleware that is no chain means what was asked exactly when its definition survives.
  lemma LeafMeaning(p: Platform, hosts: seq<ProxyHost>, hs: seq<ProxyHost>, h: ProxyHost, i: nat, depth: nat)
    requires Listing(hs, hosts, IsHttp) && AllAdmissible(p, hs) && h in hs && i < |h.middlewares|
    requires h.middlewares[i].kind != Chain && depth > 0
    ensures EmittedMw(AllMws(p, hs), MwKey(h, i), depth) == WantedMw(p, h, i, depth) <==> InPlace(p, hosts, h, i)
  {
    hide AllMws, MwKey, LastWriter, Listing, InPlace, ReadBehaviour, Servable, Asked, Admissible, Render, RefsOf, LastNamed, Wrap;
    var k, mw := MwKey(h, i), h.middlewares[i];
    InPlaceIff(p, hosts, hs, h, i);
    DefinedByLastWriter(p, hosts, hs, k);
    var g, j :| LastWriter(hosts, g, j, k);
    WriterListed(hosts, hs, g, j, k);
    FinalMwRead(p, h, i);
    FinalMwRead(p, g, j);
    AdmissibleAt(p, h, i);
    AdmissibleAt(p, g, j);
    AskedChain(p, mw);
    AskedChain(p, g.middlewares[j]);
    if g.middlewares[j].kind != Chain && Asked(p, g.middlewares[j]) == Asked(p, mw) {
      SameAskedSameRendered(p, g.middlewares[j], mw);
    }
  }

  // A chain whose definition survives means what was asked exactly when its entries do.
  lemma ChainMeaning(p: Platform, hosts: seq<ProxyHost>, hs: seq<ProxyHost>, h: ProxyHost, i: nat, depth: nat)
    requires Listing(hs, hosts, IsHttp) && AllAdmissible(p, hs) && h in hs && i < |h.middlewares|
    requires h.middlewares[i].kind == Chain && depth > 0 && InPlace(p, hosts, h, i)
    ensures EmittedMw(AllMws(p, hs), MwKey(h, i), depth) == WantedMw(p, h, i, depth) <==>
      forall j: nat :: TargetOf(h, i, j) ==>
        j < |h.middlewares| && EmittedMw(AllMws(p, hs), MwKey(h, j), depth - 1) == WantedMw(p, h, j, depth - 1)
  {
    hide AllMws, MwKey, Listing, InPlace, ReadBehaviour, Servable, Asked, Admissible, RefsOf, LastNamed, FinalMw, Targets, ReadType;
    var defs, refs := AllMws(p, hs), RefsOf(h.middlewares[i]);
    InPlaceIff(p, hosts, hs, h, i);
    assert Admissible(p, h.middlewares);
    FinalMwRead(p, h, i);
    RenderPreservesBehaviour(p, h.middlewares[i]);
    AdmissibleAt(p, h, i);
    AskedChain(p, h.middlewares[i]);
    var emitted, wanted := EmittedMw(defs, MwKey(h, i), depth), WantedMw(p, h, i, depth);
    assert emitted.InSequence? && wanted.InSequence? && |emitted.items| == |wanted.items| == |refs|;
    forall k | 0 <= k < |refs|
      ensures LastNamed(h.middlewares, refs[k]).Some?
      ensures TargetOf(h, i, LastNamed(h.middlewares, refs[k]).value)
      ensures emitted.items[k] == EmittedMw(defs, MwKey(h, LastNamed(h.middlewares, refs[k]).value), depth - 1)
      ensures wanted.items[k] == WantedMw(p, h, LastNamed(h.middlewares, refs[k]).value, depth - 1)
    {
      TargetsAreOwnKeys(p, h, i, k);
    }
    SameItems(emitted.items, wanted.items);
  }

  lemma SameItems(a: seq<MwTree>, b: seq<MwTree>)
    ensures a == b <==> |a| == |b| && forall k :: 0 <= k < |a| ==> a[k] == b[k]
  {
  }

  lemma AdmissibleAt(p: Platform, h: ProxyHost, i: nat)
    requires Admissible(p, h.middlewares) && i < |h.middlewares|
    ensures Servable(h.middlewares[i])
  {
    hide Servable, Render;
    RenderPreservesBehaviour(p, h.middlewares[i]);
  }

  /** A middleware whose chains survive means what was asked, to a given depth
      and cyclic chains included, exactly when every definition it leads to
      survives. */
  lemma {:induction false} UnrollsAsAsked(p: Platform, hosts: seq<ProxyHost>, hs: seq<ProxyHost>, h: ProxyHost, i: nat, depth: nat)
    requires Listing(hs, hosts, IsHttp) && AllAdmissible(p, hs) && h in hs && i < |h.middlewares|
    requires ChainsInPlace(p, hosts, h, i, depth)
    ensures EmittedMw(AllMws(p, hs), MwKey(h, i), depth) == WantedMw(p, h, i, depth) <==> AllInPlace(p, hosts, h, i, depth)
    decreases depth
  {
    hide AllMws, MwKey, Listing, InPlace, AllAdmissible, TargetOf, EmittedMw, WantedMw;
    if depth == 0 {
      CutIsCut(p, AllMws(p, hs), h, i);
    } else if h.middlewares[i].kind == Chain {
      assert InPlace(p, hosts, h, i);
      forall j: nat | TargetOf(h, i, j)
        ensures j < |h.middlewares|
        ensures EmittedMw(AllMws(p, hs), MwKey(h, j), depth - 1) == WantedMw(p, h, j, depth - 1) <==>
                AllInPlace(p, hosts, h, j, depth - 1)
      {
        TargetInRange(h, i, j);
        UnrollsAsAsked(p, hosts, hs, h, j, depth - 1);
      }
      hide ChainsInPlace;
      ChainMeaning(p, hosts, hs, h, i, depth);
    } else {
      LeafMeaning(p, hosts, hs, h, i, depth);
      forall j: nat ensures !TargetOf(h, i, j) { NoTarget(h, i, j); }
    }
  }

  lemma CutIsCut(p: Platform, defs: Object, h: ProxyHost, i: nat)
    requires i < |h.middlewares|
    ensures EmittedMw(defs, MwKey(h, i), 0) == WantedMw(p, h, i, 0)
  {
  }

  lemma NoTarget(h: ProxyHost, i: nat, j: nat)
    requires i < |h.middlewares| && h.middlewares[i].kind != Chain
    ensures !TargetOf(h, i, j)
  {
  }

  lemma HttpDefs(p: Platform, order: seq<ProxyHost>, pool: seq<Certificate>)
    ensures SectionMap(DocumentOf(p, order, pool), "http", "middlewares") == AllMws(p, Filter(order, IsHttp))
  {
    hide Document, SectionMap, AllMws, WriteAll;
    DocumentParts(HttpMapsOf(p, Filter(order, IsHttp)), Filter(order, IsTcp), Filter(order, IsUdp), pool);
  }

  lemma HttpAdmissible(p: Platform, hs: seq<ProxyHost>)
    requires FirstHostFault(p, hs).None?
    ensures AllAdmissible(p, hs)
  {
    hide FirstHostFault, HostFault, Admissible;
    NoHostFault(p, hs);
    forall h | h in hs ensures Admissible(p, h.middlewares) {
      var n :| 0 <= n < |hs| && hs[n] == h;
      HostFaultExact(p, h);
    }
  }

  /** In any successful compile, with no hypothesis on names, the definition under
      a middleware's mangled name is its own exactly when the last-named enabled
      HTTP host that writes the name writes the same definition. */
  lemma DefinitionsSurvive(p: Platform, hosts: seq<ProxyHost>, certs: seq<Certificate>, c: Compiled, h: ProxyHost, i: nat)
    requires CompilesTo(p, hosts, certs, Success(c))
    requires h in hosts && h.enabled && IsHttp(h) && i < |h.middlewares|
    ensures var defs := SectionMap(c.config, "http", "middlewares");
      MwKey(h, i) in defs && (defs[MwKey(h, i)] == FinalMw(p, h, i) <==> InPlace(p, hosts, h, i))
  {
    hide CompilesTo, Publishable, IsSortOf, DocumentOf, SectionMap, AllMws, FinalMw, MwKey, Filter, FirstHostFault, InPlace;
    var order, pool := CompiledParts(p, hosts, certs, c);
    ListingOf(p, hosts, order, IsHttp);
    HttpDefs(p, order, pool);
    assert h in Filter(order, IsHttp);
    InPlaceIff(p, hosts, Filter(order, IsHttp), h, i);
  }

  /** In any successful compile, a middleware of an enabled HTTP host whose chains
      survive means what the host asked, through chains and to any depth, exactly
      when each definition it leads to survives; in particular it does whenever
      they all survive, whatever happens to the host's other middlewares. */
  lemma MiddlewaresMeanWhatWasAsked(p: Platform, hosts: seq<ProxyHost>, certs: seq<Certificate>, c: Compiled,
                                    h: ProxyHost, i: nat, depth: nat)
    requires CompilesTo(p, hosts, certs, Success(c))
    requires h in hosts && h.enabled && IsHttp(h) && i < |h.middlewares|
    ensures var means := EmittedMw(SectionMap(c.config, "http", "middlewares"), MwKey(h, i), depth) == WantedMw(p, h, i, depth);
      && (AllInPlace(p, hosts, h, i, depth) ==> means)
      && (ChainsInPlace(p, hosts, h, i, depth) ==> (means <==> AllInPlace(p, hosts, h, i, depth)))
  {
    hide CompilesTo, Publishable, IsSortOf, DocumentOf, SectionMap, AllMws, MwKey, Filter, FirstHostFault;
    hide AllInPlace, ChainsInPlace, AllAdmissible, WantedMw, EmittedMw;
    var order, pool := CompiledParts(p, hosts, certs, c);
    var hs := Filter(order, IsHttp);
    ListingOf(p, hosts, order, IsHttp);
    HttpDefs(p, order, pool);
    HttpAdmissible(p, hs);
    assert h in hs;
    if AllInPlace(p, hosts, h, i, depth) { AllMeansChains(p, hosts, h, i, depth); }
    if ChainsInPlace(p, hosts, h, i, depth) { UnrollsAsAsked(p, hosts, hs, h, i, depth); }
  }

  // ---------------------------------------------------------------- what a name means in a fleet

  ghost predicate Written(hosts: seq<ProxyHost>, k: string) {
    exists g, j :: LastWriter(hosts, g, j, k)
  }

  /** What a mangled name stands for in a fleet: what its last writer asks for,
      and so on through that host's chains. */
  ghost function FleetMw(p: Platform, hosts: seq<ProxyHost>, k: string, depth: nat): MwTree
    decreases depth, 1
  {
    if depth == 0 then Cut
    else if !Written(hosts, k) then Missing
    else
      var g, j :| LastWriter(hosts, g, j, k);
      WriterMw(p, hosts, g, j, depth)
  }

  // One unrolling of what a writer asks for.
  ghost function WriterMw(p: Platform, hosts: seq<ProxyHost>, g: ProxyHost, j: int, depth: nat): MwTree
    requires 0 <= j < |g.middlewares| && depth > 0
    decreases depth, 0
  {
    var mw := g.middlewares[j];
    if mw.kind == Chain then
      var names := Targets(g, RefsOf(mw));
      InSequence(seq(|names|, n requires 0 <= n < |names| => FleetMw(p, hosts, names[n], depth - 1)))
    else if Servable(mw) then Step(Asked(p, mw)) else Missing
  }

  lemma FleetWriter(p: Platform, hosts: seq<ProxyHost>, k: string, depth: nat) returns (g: ProxyHost, j: int)
    requires Written(hosts, k) && depth > 0
    ensures LastWriter(hosts, g, j, k) && 0 <= j < |g.middlewares| && FleetMw(p, hosts, k, depth) == WriterMw(p, hosts, g, j, depth)
  {
    hide WriterMw;
    g, j :| LastWriter(hosts, g, j, k) && 0 <= j < |g.middlewares| && FleetMw(p, hosts, k, depth) == WriterMw(p, hosts, g, j, depth);
  }

  lemma {:induction false} EmittedIsFleet(p: Platform, hosts: seq<ProxyHost>, hs: seq<ProxyHost>, k: string, depth: nat)
    requires Listing(hs, hosts, IsHttp) && AllAdmissible(p, hs)
    ensures EmittedMw(AllMws(p, hs), k, depth) == FleetMw(p, hosts, k, depth)
    decreases depth
  {
    hide AllMws, LastWriter, Listing, ReadBehaviour, Servable, Asked, Admissible, RefsOf, FinalMw, Targets, ReadType;
    if depth > 0 {
      DefinedByLastWriter(p, hosts, hs, k);
      if Written(hosts, k) {
        var g, j := FleetWriter(p, hosts, k, depth);
        hide FleetMw;
        WriterListed(hosts, hs, g, j, k);
        assert Admissible(p, g.middlewares);
        FinalMwRead(p, g, j);
        AdmissibleAt(p, g, j);
        AskedChain(p, g.middlewares[j]);
        var names := Targets(g, RefsOf(g.middlewares[j]));
        if g.middlewares[j].kind == Chain {
          forall n | 0 <= n < |names| ensures EmittedMw(AllMws(p, hs), names[n], depth - 1) == FleetMw(p, hosts, names[n], depth - 1) {
            EmittedIsFleet(p, hosts, hs, names[n], depth - 1);
          }
          SameItems(EmittedMw(AllMws(p, hs), k, depth).items, WriterMw(p, hosts, g, j, depth).items);
        }
      }
    }
  }

  /** In any successful compile, with no hypothesis at all, every mangled name
      means in the document what it stands for in the fleet; so a middleware
      means what was asked exactly when the fleet's last writers ask for the
      same. */
  lemma NamesMeanTheirLastWriters(p: Platform, hosts: seq<ProxyHost>, certs: seq<Certificate>, c: Compiled, k: string, depth: nat)
    requires CompilesTo(p, hosts, certs, Success(c))
    ensures EmittedMw(SectionMap(c.config, "http", "middlewares"), k, depth) == FleetMw(p, hosts, k, depth)
  {
    hide CompilesTo, Publishable, IsSortOf, DocumentOf, SectionMap, AllMws, Filter, FirstHostFault;
    hide AllAdmissible, FleetMw, EmittedMw;
    var order, pool := CompiledParts(p, hosts, certs, c);
    ListingOf(p, hosts, order, IsHttp);
    HttpDefs(p, order, pool);
    HttpAdmissible(p, Filter(order, IsHttp));
    EmittedIsFleet(p, hosts, Filter(order, IsHttp), k, depth);
  }

  /** Every mangled name of a document stands for what its last writer asks for,
      and a middleware whose definitions survive for what its own host asks for. */
  ghost predicate BehavesAs(p: Platform, doc: Value, hosts: seq<ProxyHost>) {
    var defs := SectionMap(doc, "http", "middlewares");
    && (forall k, depth :: EmittedMw(defs, k, depth) == FleetMw(p, hosts, k, depth))
    && (forall h, i, depth: nat :: h in hosts && h.enabled && IsHttp(h) && 0 <= i < |h.middlewares| && AllInPlace(p, hosts, h, i, depth) ==>
          EmittedMw(defs, MwKey(h, i), depth) == WantedMw(p, h, i, depth))
  }

  lemma CompiledBehaves(p: Platform, hosts: seq<ProxyHost>, certs: seq<Certificate>, c: Compiled)
    requires CompilesTo(p, hosts, certs, Success(c))
    ensures BehavesAs(p, c.config, hosts)
  {
    hide CompilesTo, SectionMap, AllInPlace, ChainsInPlace, WantedMw, EmittedMw, FleetMw, MwKey;
    forall k, depth ensures EmittedMw(SectionMap(c.config, "http", "middlewares"), k, depth) == FleetMw(p, hosts, k, depth) {
      NamesMeanTheirLastWriters(p, hosts, certs, c, k, depth);
    }
    forall h, i, depth: nat | h in hosts && h.enabled && IsHttp(h) && 0 <= i < |h.middlewares| && AllInPlace(p, hosts, h, i, depth)
      ensures EmittedMw(SectionMap(c.config, "http", "middlewares"), MwKey(h, i), depth) == WantedMw(p, h, i, depth)
    {
      MiddlewaresMeanWhatWasAsked(p, hosts, certs, c, h, i, depth);
    }
  }

  ghost predicate ShareMwKey(a: ProxyHost, b: ProxyHost) {
    exists i, k :: WritesMw(a, i, k) && exists j :: WritesMw(b, j, k)
  }

  /** A later-named enabled HTTP host has a middleware that mangles to one of
      this host's mangled names. */
  ghost predicate Overwritten(hosts: seq<ProxyHost>, h: ProxyHost) {
    exists g :: g in hosts && g.enabled && IsHttp(g) && Less(h.name, g.name) && ShareMwKey(h, g)
  }

  /** A host that shares no mangled name with a later one keeps every definition. */
  lemma UntouchedIsInPlace(p: Platform, hosts: seq<ProxyHost>, hs: seq<ProxyHost>, h: ProxyHost, i: nat)
    requires Listing(hs, hosts, IsHttp) && h in hs && !Overwritten(hosts, h) && i < |h.middlewares|
    ensures InPlace(p, hosts, h, i)
  {
    hide FinalMw, MwKey, Key;
    forall g, j | LastWriter(hosts, g, j, MwKey(h, i)) ensures FinalMw(p, g, j) == FinalMw(p, h, i) {
      assert WritesMw(h, i, MwKey(h, i)) && g in hs && h in hs;
      LessTotal(g.name, h.name);
      assert WritesMw(g, j, MwKey(h, i));
      assert ShareMwKey(h, g);
      assert g.name == h.name;
      var m :| 0 <= m < |hs| && hs[m] == g;
      var n :| 0 <= n < |hs| && hs[n] == h;
      assert HostName(hs[m]) == HostName(hs[n]);
      MwKeysDistinct(h, i, j);
    }
  }

  /** Hosts that share a mangled name have equal sanitized names, or one
      sanitized name followed by a dash starts the other. */
  lemma SharedKeysNeedPrefixes(a: ProxyHost, b: ProxyHost)
    requires ShareMwKey(a, b)
    ensures Key(a) == Key(b) || HasPrefix(Key(b), Key(a) + "-") || HasPrefix(Key(a), Key(b) + "-")
  {
    hide Sanitize, Decimal;
    var i, k :| WritesMw(a, i, k) && exists j :: WritesMw(b, j, k);
    var j :| WritesMw(b, j, k);
    var x, y := Key(a), Key(b);
    assert MwKey(a, i)[..|x| + 1] == x + "-" && MwKey(b, j)[..|y| + 1] == y + "-";
    assert k[..|x|] == x && k[..|y|] == y;
    if |x| < |y| {
      assert y[..|x| + 1] == k[..|x| + 1];
    } else if |y| < |x| {
      assert x[..|y| + 1] == k[..|y| + 1];
    }
  }

  // Middleware "1-x" at position 0 of host "a".
  const EARLIER := ProxyHost("a", HTTP, "x", "http://u", [], false, map[], [],
    [Middleware("1-x", Headers, None)], false, "", true)
  // Middleware "x" at position 1 of host "a-0".
  const LATER := ProxyHost("a-0", HTTP, "y", "http://u", [], false, map[], [],
    [Middleware("w", Compress, None), Middleware("x", Compress, None)], false, "", true)

  lemma CollidingKeys()
    ensures MwKey(EARLIER, 0) == MwKey(LATER, 1) && Key(EARLIER) != Key(LATER) && Less(EARLIER.name, LATER.name)
  {
    assert Key(EARLIER) == "a" && Key(LATER) == "a-0";
    assert Decimal(0) == "0" && Decimal(1) == "1";
    assert Sanitize("1-x") == "1-x" && Sanitize("x") == "x";
    assert MwKey(EARLIER, 0) == "a-0-1-x" == MwKey(LATER, 1);
    assert "a"[1..] == "" && "a-0"[1..] == "-0";
  }

  lemma EarlierIsLost(p: Platform)
    ensures !InPlace(p, [EARLIER, LATER], EARLIER, 0)
  {
    hide MwKey;
    CollidingKeys();
    var k := MwKey(EARLIER, 0);
    assert WritesMw(LATER, 1, k);
    LessTotal(EARLIER.name, LATER.name);
    LessTotal(LATER.name, LATER.name);
    assert LATER in [EARLIER, LATER];
    assert LastWriter([EARLIER, LATER], LATER, 1, k);
    assert |TypeName(Headers)| == 7 && |TypeName(Compress)| == 8;
    assert TypeName(Headers) in FinalMw(p, EARLIER, 0).fields;
    assert TypeName(Headers) !in FinalMw(p, LATER, 1).fields;
  }

  lemma BothAdmissible(p: Platform)
    ensures Admissible(p, EARLIER.middlewares) && Admissible(p, LATER.middlewares)
  {
  }

  lemma CollidingHosts(p: Platform)
    requires p.parseURL("http://u") == Some(("http", "u"))
    ensures Publishable(p, [EARLIER, LATER])
  {
    hide LabelChar, HostOk, NotBlank;
    LetterIsLabelChar('x');
    LetterIsLabelChar('y');
    ShortDomain("x");
    ShortDomain("y");
    hide LooksLikeDomain;
    assert NotBlank("a") && NotBlank("a-0") by { NamesNotBlank(); }
    CollidingHostOk(p, EARLIER);
    CollidingHostOk(p, LATER);
    assert |"a"| != |"a-0"| && "x"[0] != "y"[0];
    TwoHosts(p, EARLIER, LATER);
  }

  lemma NamesNotBlank()
    ensures NotBlank("a") && NotBlank("a-0")
  {
  }

  /** Mangled names of different hosts can collide, although sanitized host names
      are distinct: this fleet compiles, both hosts write a-0-1-x, and the
      earlier host's middleware does not mean what was asked. */
  lemma MangledNamesCollide(p: Platform) returns (c: Compiled)
    requires p.parseURL("http://u") == Some(("http", "u"))
    ensures Key(EARLIER) != Key(LATER) && CompilesTo(p, [EARLIER, LATER], [], Success(c))
    ensures EmittedMw(SectionMap(c.config, "http", "middlewares"), MwKey(EARLIER, 0), 1) != WantedMw(p, EARLIER, 0, 1)
  {
    hide CompilesTo, Publishable, Admissible, MwKey, InPlace, EmittedMw, WantedMw, SectionMap, Key;
    CollidingKeys();
    CollidingHosts(p);
    BothAdmissible(p);
    c := CompileSucceeds(p, [EARLIER, LATER], []);
    EarlierIsLost(p);
    assert ChainsInPlace(p, [EARLIER, LATER], EARLIER, 0, 1) && !AllInPlace(p, [EARLIER, LATER], EARLIER, 0, 1);
    MiddlewaresMeanWhatWasAsked(p, [EARLIER, LATER], [], c, EARLIER, 0, 1);
  }
}
