/** The configuration one agent is served: the published snapshot filtered by
    the agent's labels and compiled again. */
module AgentConfig {
  import opened Wrappers
  import opened Text
  import opened Labels
  import opened Model
  import opened Lists
  import opened Sorting
  import opened Middlewares
  import opened Validation
  import opened Compiler
  import opened Writers
  import opened Routing

  /** Whether an agent with these labels gets the host; a selector that does
      not parse selects nobody. */
  predicate Selected(h: ProxyHost, agentLabels: seq<string>) {
    match Parsed(h.labelSelector)
    case Success(reqs) => Selects(reqs, agentLabels)
    case Failure(_) => false
  }

  function SelectedBy(agentLabels: seq<string>): ProxyHost -> bool {
    (h: ProxyHost) => Selected(h, agentLabels)
  }

  function AgentHosts(snapshot: seq<ProxyHost>, agentLabels: seq<string>): seq<ProxyHost> {
    Filter(snapshot, SelectedBy(agentLabels))
  }

  /** The selector can be read, and the last word of the labels on every key it
      names is the value it gives. */
  ghost predicate Asks(selector: string, labels: seq<string>) {
    var parts := Split(selector, ',');
    && (forall i :: 0 <= i < |parts| ==> Fine(parts[i]))
    && (forall k, v, w :: SaidBy(parts, k, v) && SaidBy(parts, k, w) ==> v == w)
    && (forall k, v :: SaidBy(parts, k, v) ==> LastWord(labels, k, v))
  }

  /** An agent gets a host exactly when the host's selector asks for its labels. */
  lemma SelectedExact(h: ProxyHost, labels: seq<string>)
    ensures Selected(h, labels) <==> Asks(h.labelSelector, labels)
  {
    hide Parsed, Selects, Split, Fine, SaidBy, LastWord;
    ParsedExact(h.labelSelector);
    if Parsed(h.labelSelector).Success? {
      var reqs := Parsed(h.labelSelector).value;
      SelectsExact(reqs, labels);
      assert forall k :: k in reqs ==> SaidBy(Split(h.labelSelector, ','), k, reqs[k]);
    }
  }

  /** The filtering loop of buildAgentConfigResponse: the agent's hosts are the
      snapshot's, in order, with exactly those kept that ask for its labels. */
  method FilterForAgent(snapshot: seq<ProxyHost>, agentLabels: seq<string>) returns (filtered: seq<ProxyHost>)
    ensures filtered == AgentHosts(snapshot, agentLabels)
    ensures IsSublist(filtered, snapshot)
    ensures forall h :: multiset(filtered)[h] == if Asks(h.labelSelector, agentLabels) then multiset(snapshot)[h] else 0
  {
    hide Parsed, Selects, Asks;
    filtered := [];
    for i := 0 to |snapshot|
      invariant filtered == AgentHosts(snapshot[..i], agentLabels)
    {
      Snoc(snapshot, i);
      var sel := Parse(snapshot[i].labelSelector);
      if sel.Failure? {
        continue;
      }
      var ok := Matches(sel.value, agentLabels);
      if !ok {
        continue;
      }
      filtered := filtered + [snapshot[i]];
    }
    Whole(snapshot);
    FilterIsSublist(snapshot, SelectedBy(agentLabels));
    forall h ensures multiset(filtered)[h] == if Asks(h.labelSelector, agentLabels) then multiset(snapshot)[h] else 0 {
      FilterCount(snapshot, SelectedBy(agentLabels), h);
      SelectedExact(h, agentLabels);
    }
  }

  // ---------------------------------------------------------------- snapshots of one host

  lemma SnapshotKeeps(h: ProxyHost)
    ensures var s := SnapshotHost(h);
      && Key(s) == Key(h) && Proto(s) == Proto(h) && s.enabled == h.enabled && s.name == h.name
      && |s.middlewares| == |h.middlewares|
      && (forall i :: 0 <= i < |h.middlewares| ==> s.middlewares[i] == SnapshotMw(h.middlewares[i]))
      && (forall i :: 0 <= i < |h.middlewares| ==> MwKey(s, i) == MwKey(h, i))
      && MwKeys(s) == MwKeys(h)
      && (forall labels :: Selected(s, labels) <==> Selected(h, labels))
  {
    hide Sanitize, Decimal, Parsed;
  }

  lemma SnapshotEmission(h: ProxyHost, proto: Protocol)
    ensures RouterFor(proto)(SnapshotHost(h)) == RouterFor(proto)(h)
    ensures ServiceFor(proto)(SnapshotHost(h)) == ServiceFor(proto)(h)
  {
    hide Sanitize, MwKey, Parsed, RuleFor;
    SnapshotKeeps(h);
    assert EffectiveUpstreams(SnapshotHost(h)) == EffectiveUpstreams(h);
    assert HealthCheck(SnapshotHost(h)) == HealthCheck(h);
  }

  lemma SnapshotRefs(mw: Middleware)
    ensures RefsOf(SnapshotMw(mw)) == RefsOf(mw)
    ensures SnapshotMw(mw).kind == mw.kind && SnapshotMw(mw).name == mw.name
  {
    assert Config(SnapshotMw(mw)) == Config(mw);
  }

  lemma {:induction false} SnapshotLastNamed(a: seq<Middleware>, b: seq<Middleware>, name: string)
    requires |a| == |b| && forall i :: 0 <= i < |a| ==> b[i].name == a[i].name
    ensures LastNamed(b, name) == LastNamed(a, name)
  {
    if a != [] { SnapshotLastNamed(a[..|a| - 1], b[..|b| - 1], name); }
  }

  lemma SnapshotAdmissible(p: Platform, h: ProxyHost)
    ensures Admissible(p, SnapshotHost(h).middlewares) <==> Admissible(p, h.middlewares)
  {
    hide Render, RefsOf, LastNamed;
    var a, b := h.middlewares, SnapshotHost(h).middlewares;
    forall i | 0 <= i < |a| ensures Render(p, b[i]).Success? <==> Render(p, a[i]).Success?
      ensures RefsOf(b[i]) == RefsOf(a[i]) && b[i].kind == a[i].kind && b[i].name == a[i].name
    {
      SnapshotRender(p, a[i]);
      SnapshotRefs(a[i]);
    }
    forall name ensures LastNamed(b, name) == LastNamed(a, name) { SnapshotLastNamed(a, b, name); }
  }

  /** A stored middleware is emitted unchanged exactly when it does not lose an
      empty object. */
  lemma SnapshotFinalMw(p: Platform, h: ProxyHost, i: nat)
    requires Admissible(p, h.middlewares) && i < |h.middlewares|
    ensures |SnapshotHost(h).middlewares| == |h.middlewares|
    ensures FinalMw(p, SnapshotHost(h), i) == FinalMw(p, h, i) <==> !LosesEmptyObject(h.middlewares[i])
  {
    hide Render, RefsOf, LastNamed, Wrap, MwKey, SnapshotMw;
    var a, b := h.middlewares, SnapshotHost(h).middlewares;
    SnapshotRefs(a[i]);
    SnapshotRender(p, a[i]);
    SnapshotKeeps(h);
    var refs := RefsOf(a[i]);
    forall name ensures LastNamed(b, name) == LastNamed(a, name) {
      forall j | 0 <= j < |a| ensures b[j].name == a[j].name { SnapshotRefs(a[j]); }
      SnapshotLastNamed(a, b, name);
    }
    assert Targets(SnapshotHost(h), refs) == Targets(h, refs);
  }

  // ---------------------------------------------------------------- every agent can be served

  lemma SnapshotMember(hosts: seq<ProxyHost>, s: ProxyHost)
    ensures s in SnapshotHosts(hosts) <==> exists h :: h in hosts && s == SnapshotHost(h)
  {
    hide SnapshotHost;
    if s in SnapshotHosts(hosts) {
      var i :| 0 <= i < |hosts| && SnapshotHosts(hosts)[i] == s;
      assert hosts[i] in hosts && s == SnapshotHost(hosts[i]);
    }
    if h :| h in hosts && s == SnapshotHost(h) {
      var i :| 0 <= i < |hosts| && hosts[i] == h;
      assert SnapshotHosts(hosts)[i] == s;
    }
  }

  /** The fleet an agent's recompile sees is publishable whenever the published
      one was. */
  lemma AgentHostsPublishable(p: Platform, hosts: seq<ProxyHost>, labels: seq<string>)
    requires Publishable(p, hosts)
    ensures Publishable(p, AgentHosts(SnapshotHosts(hosts), labels))
  {
    hide Publishable, Selected, IsSublist;
    SnapshotPublishable(p, hosts);
    FilterIsSublist(SnapshotHosts(hosts), SelectedBy(labels));
    SublistPublishable(p, AgentHosts(SnapshotHosts(hosts), labels), SnapshotHosts(hosts));
  }

  lemma HostsAdmissible(p: Platform, hosts: seq<ProxyHost>, order: seq<ProxyHost>)
    requires Publishable(p, hosts) && IsSortOf(order, Filter(hosts, IsEnabled), HostName)
    requires FirstHostFault(p, Filter(order, IsHttp)).None?
    ensures forall h :: h in hosts && h.enabled && IsHttp(h) ==> Admissible(p, h.middlewares)
  {
    hide Publishable, HostFault, FirstHostFault, Filter, Admissible;
    var hs := Filter(order, IsHttp);
    ListingOf(p, hosts, order, IsHttp);
    NoHostFault(p, hs);
    forall h | h in hosts && h.enabled && IsHttp(h) ensures Admissible(p, h.middlewares) {
      assert h in hs;
      var n :| 0 <= n < |hs| && hs[n] == h;
      HostFaultExact(p, h);
    }
  }

  /** A publishable fleet is servable: once a fleet compiled, the recompile of
      its snapshot for any label set succeeds, whatever order the sorts leave. */
  lemma EveryAgentIsServable(p: Platform, hosts: seq<ProxyHost>, certs: seq<Certificate>, c: Compiled, labels: seq<string>)
    returns (mine: Compiled)
    requires CompilesTo(p, hosts, certs, Success(c))
    ensures CompilesTo(p, AgentHosts(SnapshotHosts(hosts), labels), SnapshotCerts(certs), Success(mine))
    ensures forall r :: CompilesTo(p, AgentHosts(SnapshotHosts(hosts), labels), SnapshotCerts(certs), r) ==> r.Success?
  {
    hide Publishable, Selected, FirstHostFault, DocumentOf, IsSortOf, CompilesTo, SnapshotHosts, SnapshotCerts, Admissible;
    var order, pool := CompiledParts(p, hosts, certs, c);
    var mineHosts := AgentHosts(SnapshotHosts(hosts), labels);
    AgentHostsPublishable(p, hosts, labels);
    HostsAdmissible(p, hosts, order);
    forall s | s in mineHosts && s.enabled && IsHttp(s) ensures Admissible(p, s.middlewares) {
      SnapshotMember(hosts, s);
      var h :| h in hosts && s == SnapshotHost(h);
      SnapshotAdmissible(p, h);
    }
    mine := CompileSucceeds(p, mineHosts, SnapshotCerts(certs));
  }
}
