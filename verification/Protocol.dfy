/** Manager and agents together, one atomic step at a time: operators edit
    hosts, certificates and labels; any number of publishers run the publish or
    rollback sequence over the store; agents poll, crash and restart. */
module Protocol {
  import opened Wrappers
  import opened Model
  import opened Compiler
  import opened RevisionStore
  import opened Publishing
  import opened ProviderPlugin

  datatype AgentRecord = AgentRecord(fleet: string, labels: seq<string>)

  /** How far a publisher has come. */
  datatype Publisher =
    | Resting
    | HasHosts(fleet: string, hosts: seq<ProxyHost>)
    | HasSources(fleet: string, hosts: seq<ProxyHost>, certs: seq<Certificate>)
    | HasCompiled(fleet: string, hosts: seq<ProxyHost>, certs: seq<Certificate>, c: Compiled)
    | HasPrior(prior: Revision)
    | ReadyToStore(rev: Revision)

  /** How far an agent's process and the manager serving it have come. */
  datatype Phase =
    | Down
    | CacheRead(c: Cached)
    | CacheOffered(c: Cached)
    | Idle
    | Asked(ifNoneMatch: string)
    | RevisionRead(ifNoneMatch: string, rev: Revision)
    | GotNotModified(computed: Response)
    | GotBody(r: Response, etag: string)
    | Accepted(r: Response, etag: string)
    | Offered(r: Response, etag: string)
    | Noted(r: Response, etag: string)

  datatype AgentProcess = AgentProcess(phase: Phase, st: AgentState)

  datatype World = World(
    db: Db,
    hosts: map<string, seq<ProxyHost>>,
    certs: map<string, seq<Certificate>>,
    agents: map<string, AgentRecord>,
    publishers: map<int, Publisher>,
    providers: map<string, AgentProcess>
  )

  /** Fixed for a whole run: the manager's keys and each agent's static configuration. */
  datatype Setup = Setup(m: Manager, configs: map<string, ProviderConfig>)

  function HostsOf(w: World, fleet: string): seq<ProxyHost> { if fleet in w.hosts then w.hosts[fleet] else [] }
  function CertsOf(w: World, fleet: string): seq<Certificate> { if fleet in w.certs then w.certs[fleet] else [] }
  function PublisherOf(w: World, i: int): Publisher { if i in w.publishers then w.publishers[i] else Resting }
  function ProviderOf(w: World, a: string): AgentProcess { if a in w.providers then w.providers[a] else AgentProcess(Down, FRESH) }

  function WithPublisher(w: World, i: int, pb: Publisher): World { w.(publishers := w.publishers[i := pb]) }
  function WithProvider(w: World, a: string, phase: Phase, st: AgentState): World {
    w.(providers := w.providers[a := AgentProcess(phase, st)])
  }

  const START := World(Db(map[], map[], 0), map[], map[], map[], map[], map[])

  // ---------------------------------------------------------------- steps

  datatype Action =
    // operators
    | EditHosts(fleet: string, hosts: seq<ProxyHost>)
    | EditCerts(fleet: string, certs: seq<Certificate>)
    | AddFleet(fleet: string)
    | AddAgent(agent: string, fleet: string, labels: seq<string>)
    | EditLabels(agent: string, labels: seq<string>)
    // publishers
    | ListHosts(i: int, fleet: string)
    | ListCerts(i: int)
    | CompileSources(i: int, c: Compiled)
    | TakeNumber(i: int, number: int)
    | ReadPrior(i: int, id: int)
    | TakeRollbackNumber(i: int, number: int)
    | StoreRevision(i: int)
    | Abandon(i: int)
    // agents
    | ReadCache(agent: string)
    | StartWithoutCache(agent: string)
    | OfferCached(agent: string)
    | NoteCached(agent: string)
    | Ask(agent: string)
    | ServerReadsRevision(agent: string)
    | ServerAnswers(agent: string, r: Response)
    | PollFails(agent: string)
    | TakeNotModified(agent: string)
    | AcceptBody(agent: string)
    | OfferBody(agent: string)
    | NoteBody(agent: string)
    | SaveBody(agent: string)
    | SkipSave(agent: string)
    | Crash(agent: string)

  ghost predicate OperatorStep(w: World, w': World, act: Action) {
    match act
    case EditHosts(f, hs) => w' == w.(hosts := w.hosts[f := hs])
    case EditCerts(f, cs) => w' == w.(certs := w.certs[f := cs])
    case AddFleet(f) => f !in w.db.fleets && w' == w.(db := w.db.(fleets := w.db.fleets[f := Fleet(None)]))
    case AddAgent(a, f, ls) => a !in w.agents && f in w.db.fleets && w' == w.(agents := w.agents[a := AgentRecord(f, ls)])
    case EditLabels(a, ls) => a in w.agents && w' == w.(agents := w.agents[a := w.agents[a].(labels := ls)])
    case _ => false
  }

  ghost predicate PublisherStep(m: Manager, w: World, w': World, act: Action) {
    match act
    case ListHosts(i, f) => PublisherOf(w, i) == Resting && w' == WithPublisher(w, i, HasHosts(f, HostsOf(w, f)))
    case ListCerts(i) => var pb := PublisherOf(w, i);
      pb.HasHosts? && w' == WithPublisher(w, i, HasSources(pb.fleet, pb.hosts, CertsOf(w, pb.fleet)))
    case CompileSources(i, c) => var pb := PublisherOf(w, i);
      pb.HasSources? && CompilesTo(m.p, pb.hosts, pb.certs, Success(c)) &&
      w' == WithPublisher(w, i, HasCompiled(pb.fleet, pb.hosts, pb.certs, c))
    case TakeNumber(i, n) => var pb := PublisherOf(w, i);
      pb.HasCompiled? && pb.fleet in w.db.fleets && IsTop(w.db, pb.fleet, n - 1) &&
      w' == WithPublisher(w, i, ReadyToStore(FreshRevision(m, pb.fleet, n, pb.hosts, pb.certs, pb.c)))
    case ReadPrior(i, id) => PublisherOf(w, i) == Resting && id in w.db.revisions &&
      w' == WithPublisher(w, i, HasPrior(w.db.revisions[id]))
    case TakeRollbackNumber(i, n) => var pb := PublisherOf(w, i);
      pb.HasPrior? && pb.prior.fleet in w.db.fleets && IsTop(w.db, pb.prior.fleet, n - 1) &&
      w' == WithPublisher(w, i, ReadyToStore(RollbackRevision(m, pb.prior, n)))
    case StoreRevision(i) => var pb := PublisherOf(w, i);
      pb.ReadyToStore? && w' == WithPublisher(w, i, Resting).(db := Created(w.db, pb.rev, true).0)
    case Abandon(i) => w' == WithPublisher(w, i, Resting)
    case _ => false
  }

  // The manager's answer: 304 when If-None-Match names the computed tag.
  ghost function Reply(ifNoneMatch: string, r: Response): Phase {
    if ifNoneMatch != "" && EtagMatches(ifNoneMatch, r.etag) then GotNotModified(r) else GotBody(r, EtagFor(r, r.etag))
  }

  ghost predicate ProviderStep(s: Setup, w: World, w': World, a: string, act: Action)
    requires a in s.configs
  {
    var cfg, pr := s.configs[a], ProviderOf(w, a);
    var st := pr.st;
    match act
    case ReadCache(_) => pr.phase.Down? && st.cache.Some? && ValidResponse(cfg, st.cache.value.response) &&
      w' == WithProvider(w, a, CacheRead(st.cache.value), st)
    case StartWithoutCache(_) => pr.phase.Down? && w' == WithProvider(w, a, Idle, st)
    case OfferCached(_) => pr.phase.CacheRead? && w' == WithProvider(w, a, CacheOffered(pr.phase.c), Offer(st, pr.phase.c.response))
    case NoteCached(_) => pr.phase.CacheOffered? && w' == WithProvider(w, a, Idle, Note(st, pr.phase.c.response, pr.phase.c.etag))
    case Ask(_) => pr.phase.Idle? && w' == WithProvider(w, a, Asked(st.lastETag), st)
    case ServerReadsRevision(_) => pr.phase.Asked? && a in w.agents &&
      Published(w.db, w.agents[a].fleet).Some? &&
      w' == WithProvider(w, a, RevisionRead(pr.phase.ifNoneMatch, Published(w.db, w.agents[a].fleet).value), st)
    case ServerAnswers(_, r) => pr.phase.RevisionRead? && a in w.agents &&
      Answers(s.m, a, w.agents[a].labels, pr.phase.rev, r) &&
      w' == WithProvider(w, a, Reply(pr.phase.ifNoneMatch, r), st)
    case PollFails(_) => (pr.phase.Asked? || pr.phase.RevisionRead? || pr.phase.GotNotModified? || pr.phase.GotBody?) &&
      w' == WithProvider(w, a, Idle, st)
    case TakeNotModified(_) => pr.phase.GotNotModified? && w' == WithProvider(w, a, Idle, st)
    case AcceptBody(_) => pr.phase.GotBody? && ValidResponse(cfg, pr.phase.r) && Verified(s.m.p, s.m.crypto, cfg, pr.phase.r) &&
      w' == WithProvider(w, a, Accepted(pr.phase.r, pr.phase.etag), st)
    case OfferBody(_) => pr.phase.Accepted? && w' == WithProvider(w, a, Offered(pr.phase.r, pr.phase.etag), Offer(st, pr.phase.r))
    case NoteBody(_) => pr.phase.Offered? && w' == WithProvider(w, a, Noted(pr.phase.r, pr.phase.etag), Note(st, pr.phase.r, pr.phase.etag))
    case SaveBody(_) => pr.phase.Noted? && cfg.cacheFile && w' == WithProvider(w, a, Idle, Save(st, pr.phase.r, pr.phase.etag))
    case SkipSave(_) => pr.phase.Noted? && w' == WithProvider(w, a, Idle, st)
    case Crash(_) => w' == WithProvider(w, a, Down, Crashed(st))
    case _ => false
  }

  predicate IsOperator(act: Action) {
    act.EditHosts? || act.EditCerts? || act.AddFleet? || act.AddAgent? || act.EditLabels?
  }

  predicate IsPublisher(act: Action) {
    act.ListHosts? || act.ListCerts? || act.CompileSources? || act.TakeNumber? || act.ReadPrior? ||
    act.TakeRollbackNumber? || act.StoreRevision? || act.Abandon?
  }

  ghost predicate Next(s: Setup, w: World, w': World, act: Action) {
    if IsOperator(act) then OperatorStep(w, w', act)
    else if IsPublisher(act) then PublisherStep(s.m, w, w', act)
    else act.agent in s.configs && ProviderStep(s, w, w', act.agent, act)
  }

  /** A run: the worlds it goes through, and the action between each two. */
  datatype Run = Run(worlds: seq<World>, actions: seq<Action>)

  ghost predicate IsRun(s: Setup, run: Run) {
    && |run.worlds| == |run.actions| + 1 && run.worlds[0] == START
    && forall i :: 0 <= i < |run.actions| ==> Next(s, run.worlds[i], run.worlds[i + 1], run.actions[i])
  }

  // ---------------------------------------------------------------- what happened earlier in a run

  ghost predicate HostsSeen(ws: seq<World>, fleet: string, hosts: seq<ProxyHost>) {
    exists j :: 0 <= j < |ws| && HostsOf(ws[j], fleet) == hosts
  }

  /** These were the fleet's hosts at some moment and its certificates at that
      or a later moment. */
  ghost predicate SourcesSeen(ws: seq<World>, fleet: string, hosts: seq<ProxyHost>, certs: seq<Certificate>) {
    exists j, k :: 0 <= j <= k < |ws| && HostsOf(ws[j], fleet) == hosts && CertsOf(ws[k], fleet) == certs
  }

  /** A revision is sealed, and some publish built it from sources the fleet
      really had. */
  ghost predicate RevisionOk(m: Manager, ws: seq<World>, r: Revision) {
    Sealed(m, r) && r.number >= 1 &&
    exists hosts, certs :: SourcesSeen(ws, r.fleet, hosts, certs) && BuiltFrom(m, r, hosts, certs)
  }

  ghost predicate PublishedAt(ws: seq<World>, j: int, fleet: string, rev: Revision) {
    0 <= j < |ws| && Published(ws[j].db, fleet) == Some(rev)
  }

  ghost predicate AnsweredAt(m: Manager, ws: seq<World>, k: int, a: string, fleet: string, rev: Revision, r: Response) {
    0 <= k < |ws| && a in ws[k].agents && ws[k].agents[a].fleet == fleet && Answers(m, a, ws[k].agents[a].labels, rev, r)
  }

  /** The response is an answer for this agent, with the labels it had at some
      moment, from the revision that was published at that or an earlier moment. */
  ghost predicate Genuine(m: Manager, ws: seq<World>, a: string, r: Response) {
    exists j, k, fleet, rev :: PublishedAt(ws, j, fleet, rev) && j <= k && AnsweredAt(m, ws, k, a, fleet, rev, r)
  }

  // Everything seen stays seen.
  lemma SeenStays(m: Manager, ws: seq<World>, w: World)
    ensures forall f, hs :: HostsSeen(ws, f, hs) ==> HostsSeen(ws + [w], f, hs)
    ensures forall f, hs, cs :: SourcesSeen(ws, f, hs, cs) ==> SourcesSeen(ws + [w], f, hs, cs)
    ensures forall j, f, rev :: PublishedAt(ws, j, f, rev) ==> PublishedAt(ws + [w], j, f, rev)
    ensures forall k, a, f, rev, r :: AnsweredAt(m, ws, k, a, f, rev, r) ==> AnsweredAt(m, ws + [w], k, a, f, rev, r)
  {
    hide Answers, HostsOf, CertsOf, Published;
    var ws' := ws + [w];
    assert forall j :: 0 <= j < |ws| ==> ws'[j] == ws[j];
    forall f, hs | HostsSeen(ws, f, hs) ensures HostsSeen(ws', f, hs) {
      var j :| 0 <= j < |ws| && HostsOf(ws[j], f) == hs;
      assert HostsOf(ws'[j], f) == hs;
    }
    forall f, hs, cs | SourcesSeen(ws, f, hs, cs) ensures SourcesSeen(ws', f, hs, cs) {
      var j, k :| 0 <= j <= k < |ws| && HostsOf(ws[j], f) == hs && CertsOf(ws[k], f) == cs;
      assert HostsOf(ws'[j], f) == hs && CertsOf(ws'[k], f) == cs;
    }
  }

  lemma OkStays(m: Manager, ws: seq<World>, w: World)
    ensures forall r :: RevisionOk(m, ws, r) ==> RevisionOk(m, ws + [w], r)
    ensures forall a, r :: Genuine(m, ws, a, r) ==> Genuine(m, ws + [w], a, r)
  {
    hide SourcesSeen, BuiltFrom, Sealed, PublishedAt, AnsweredAt;
    SeenStays(m, ws, w);
    forall r | RevisionOk(m, ws, r) ensures RevisionOk(m, ws + [w], r) {
      var hosts, certs :| SourcesSeen(ws, r.fleet, hosts, certs) && BuiltFrom(m, r, hosts, certs);
      assert SourcesSeen(ws + [w], r.fleet, hosts, certs);
    }
    forall a, r | Genuine(m, ws, a, r) ensures Genuine(m, ws + [w], a, r) {
      var j, k, fleet, rev :| PublishedAt(ws, j, fleet, rev) && j <= k && AnsweredAt(m, ws, k, a, fleet, rev, r);
      assert PublishedAt(ws + [w], j, fleet, rev) && AnsweredAt(m, ws + [w], k, a, fleet, rev, r);
    }
  }
}
