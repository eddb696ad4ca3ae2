/** What every step of the protocol keeps. */
module ProtocolInvariants {
  import opened Wrappers
  import opened Model
  import opened Compiler
  import opened RevisionStore
  import opened Publishing
  import opened ProviderPlugin
  import opened Protocol

  ghost predicate DbOk(m: Manager, ws: seq<World>, db: Db) {
    LogOk(db) && forall id :: id in db.revisions ==> RevisionOk(m, ws, db.revisions[id])
  }

  ghost predicate PublisherOk(m: Manager, ws: seq<World>, db: Db, pb: Publisher) {
    match pb
    case Resting => true
    case HasHosts(f, hs) => HostsSeen(ws, f, hs)
    case HasSources(f, hs, cs) => SourcesSeen(ws, f, hs, cs)
    case HasCompiled(f, hs, cs, c) => SourcesSeen(ws, f, hs, cs) && CompilesTo(m.p, hs, cs, Success(c))
    case HasPrior(prior) => RevisionOk(m, ws, prior)
    case ReadyToStore(rev) =>
      RevisionOk(m, ws, rev) && rev.fleet in db.fleets && 1 <= rev.number <= PublishedNumber(db, rev.fleet) + 1
  }

  // The published number an agent can have heard of.
  function Latest(w: World, a: string): int {
    if a in w.agents then PublishedNumber(w.db, w.agents[a].fleet) else 0
  }

  /** A response that a manager really computed for the agent, sealed. */
  ghost predicate Good(m: Manager, ws: seq<World>, a: string, r: Response) {
    Genuine(m, ws, a, r) && r.etag == EtagOf(m.p, r.config) && r.revision >= 1
  }

  /** A good response that also passed the agent's own checks. */
  ghost predicate Trusted(s: Setup, ws: seq<World>, a: string, r: Response)
    requires a in s.configs
  {
    Good(s.m, ws, a, r) && ValidResponse(s.configs[a], r) && Verified(s.m.p, s.m.crypto, s.configs[a], r)
  }

  ghost predicate CacheOk(s: Setup, ws: seq<World>, a: string, st: AgentState, latest: int)
    requires a in s.configs
  {
    st.cache.Some? ==>
      Trusted(s, ws, a, st.cache.value.response) && st.cache.value.etag == st.cache.value.response.etag &&
      st.cache.value.response.revision <= latest
  }

  ghost predicate OfferedOk(s: Setup, ws: seq<World>, a: string, st: AgentState)
    requires a in s.configs
  {
    st.offered.Some? ==> Trusted(s, ws, a, st.offered.value)
  }

  /** A non-empty tag is the tag of what was offered last. */
  predicate TagNamesOffer(st: AgentState) {
    st.lastETag != "" ==> st.offered.Some? && st.lastETag == st.offered.value.etag
  }

  predicate Blank(st: AgentState) {
    st.lastETag == "" && st.lastApplied == 0
  }

  ghost predicate PhaseOk(s: Setup, ws: seq<World>, a: string, pr: AgentProcess, latest: int)
    requires a in s.configs
  {
    var st := pr.st;
    match pr.phase
    case Down => Blank(st) && st.offered.None?
    case CacheRead(c) => Blank(st) && st.offered.None? && st.cache == Some(c)
    case CacheOffered(c) => Blank(st) && st.offered == Some(c.response) && st.cache == Some(c)
    case Idle => TagNamesOffer(st)
    case Asked(t) => TagNamesOffer(st) && t == st.lastETag
    case RevisionRead(t, rev) => TagNamesOffer(st) && t == st.lastETag && a in Last(ws).agents &&
      RevisionOk(s.m, ws, rev) && st.lastApplied <= rev.number <= latest &&
      exists j :: PublishedAt(ws, j, Last(ws).agents[a].fleet, rev)
    case GotNotModified(r) => TagNamesOffer(st) && Good(s.m, ws, a, r) && st.lastETag != "" && EtagMatches(st.lastETag, r.etag)
    case GotBody(r, e) => TagNamesOffer(st) && Good(s.m, ws, a, r) && e == r.etag && st.lastApplied <= r.revision <= latest
    case Accepted(r, e) => TagNamesOffer(st) && Trusted(s, ws, a, r) && e == r.etag && st.lastApplied <= r.revision <= latest
    case Offered(r, e) => st.offered == Some(r) && e == r.etag && st.lastApplied <= r.revision <= latest
    case Noted(r, e) => st.offered == Some(r) && e == r.etag == st.lastETag && r.revision == st.lastApplied
  }

  function Last(ws: seq<World>): World {
    if ws == [] then START else ws[|ws| - 1]
  }

  ghost predicate ProviderOk(s: Setup, ws: seq<World>, a: string, pr: AgentProcess, latest: int)
    requires a in s.configs
  {
    && CacheOk(s, ws, a, pr.st, latest) && OfferedOk(s, ws, a, pr.st)
    && 0 <= pr.st.lastApplied <= latest && PhaseOk(s, ws, a, pr, latest)
  }

  ghost predicate Inv(s: Setup, ws: seq<World>) {
    && ws != [] && DbOk(s.m, ws, Last(ws).db)
    && (forall i :: PublisherOk(s.m, ws, Last(ws).db, PublisherOf(Last(ws), i)))
    && (forall a :: a in s.configs ==> ProviderOk(s, ws, a, ProviderOf(Last(ws), a), Latest(Last(ws), a)))
  }

  // ---------------------------------------------------------------- the log only grows

  ghost predicate Grows(w: World, w': World) {
    && (forall f :: f in w.db.fleets ==> f in w'.db.fleets)
    && (forall f :: PublishedNumber(w.db, f) <= PublishedNumber(w'.db, f))
    && (forall id :: id in w.db.revisions ==> id in w'.db.revisions && w'.db.revisions[id] == w.db.revisions[id])
    && (forall a :: a in w.agents ==> a in w'.agents && w'.agents[a].fleet == w.agents[a].fleet)
  }

  lemma LatestGrows(w: World, w': World, a: string)
    requires Grows(w, w') && DbPositive(w'.db)
    ensures Latest(w, a) <= Latest(w', a)
  {
  }

  ghost predicate DbPositive(db: Db) {
    forall f :: PublishedNumber(db, f) >= 0
  }

  lemma LogPositive(db: Db)
    requires LogOk(db)
    ensures DbPositive(db)
  {
    forall f ensures PublishedNumber(db, f) >= 0 {
      if f in db.fleets { assert FleetLogOk(db, f); }
    }
  }

  lemma AddFleetKeeps(db: Db, f: string)
    requires LogOk(db) && f !in db.fleets
    ensures LogOk(db.(fleets := db.fleets[f := Fleet(None)]))
    ensures forall g :: PublishedNumber(db.(fleets := db.fleets[f := Fleet(None)]), g) == PublishedNumber(db, g)
  {
    var db' := db.(fleets := db.fleets[f := Fleet(None)]);
    forall g | g in db'.fleets ensures FleetLogOk(db', g) {
      if g != f {
        assert FleetLogOk(db, g);
        forall k | NumberTaken(db, g, k) ensures NumberTaken(db', g, k) {
          var id :| Holds(db, g, k, id);
          assert Holds(db', g, k, id);
        }
      }
    }
  }

  lemma StoreGrows(w: World, rev: Revision)
    requires LogOk(w.db) && rev.fleet in w.db.fleets && 1 <= rev.number <= PublishedNumber(w.db, rev.fleet) + 1
    ensures var db' := Created(w.db, rev, true).0; LogOk(db') && Grows(w, w.(db := db'))
  {
    hide LogOk, NumberTaken;
    StoringKeepsLog(w.db, rev);
    if rev.number == PublishedNumber(w.db, rev.fleet) + 1 {
      StoredKeepsOld(w.db, rev);
    }
  }

  lemma OperatorFrame(w: World, w': World, act: Action)
    requires OperatorStep(w, w', act)
    ensures w'.publishers == w.publishers && w'.providers == w.providers
    ensures w'.db == if act.AddFleet? then w.db.(fleets := w.db.fleets[act.fleet := Fleet(None)]) else w.db
    ensures act.AddFleet? ==> act.fleet !in w.db.fleets
    ensures forall a :: a in w.agents ==> a in w'.agents && w'.agents[a].fleet == w.agents[a].fleet
  {
  }

  lemma PublisherFrame(m: Manager, w: World, w': World, act: Action)
    requires IsPublisher(act) && PublisherStep(m, w, w', act)
    ensures w'.providers == w.providers && w'.agents == w.agents
    ensures forall k :: k != act.i ==> PublisherOf(w', k) == PublisherOf(w, k)
    ensures act.StoreRevision? ==> PublisherOf(w, act.i).ReadyToStore?
    ensures w'.db == if act.StoreRevision? then Created(w.db, PublisherOf(w, act.i).rev, true).0 else w.db
  {
    hide CompilesTo, IsTop, Created, FreshRevision, RollbackRevision;
  }

  lemma ProviderFrame(s: Setup, w: World, w': World, a: string, act: Action)
    requires a in s.configs && ProviderStep(s, w, w', a, act)
    ensures forall b :: b != a ==> ProviderOf(w', b) == ProviderOf(w, b)
    ensures w'.db == w.db && w'.agents == w.agents && w'.publishers == w.publishers
  {
    hide Answers, Verified, ValidResponse, Reply, EtagMatches;
  }

  /** Each step touches the state of one component only. */
  lemma StepFrame(s: Setup, w: World, w': World, act: Action)
    requires Next(s, w, w', act)
    ensures !IsPublisher(act) ==> forall i :: PublisherOf(w', i) == PublisherOf(w, i)
    ensures IsPublisher(act) ==> forall i :: i != act.i ==> PublisherOf(w', i) == PublisherOf(w, i)
    ensures IsOperator(act) || IsPublisher(act) ==> forall a :: ProviderOf(w', a) == ProviderOf(w, a)
    ensures !IsOperator(act) && !IsPublisher(act) ==> forall a :: a != act.agent ==> ProviderOf(w', a) == ProviderOf(w, a)
    ensures !act.AddFleet? && !act.StoreRevision? ==> w'.db == w.db
    ensures forall a :: a in w.agents ==> a in w'.agents && w'.agents[a].fleet == w.agents[a].fleet
  {
    hide OperatorStep, PublisherStep, ProviderStep;
    if IsOperator(act) { OperatorFrame(w, w', act); }
    else if IsPublisher(act) { PublisherFrame(s.m, w, w', act); }
    else { ProviderFrame(s, w, w', act.agent, act); }
  }

  lemma StepGrows(s: Setup, ws: seq<World>, w': World, act: Action)
    requires Inv(s, ws) && Next(s, Last(ws), w', act)
    ensures LogOk(w'.db) && Grows(Last(ws), w')
  {
    hide LogOk, ProviderOk, RevisionOk, Created, OperatorStep, PublisherStep, ProviderStep, PublishedNumber;
    var w := Last(ws);
    StepFrame(s, w, w', act);
    if act.AddFleet? {
      OperatorFrame(w, w', act);
      AddFleetKeeps(w.db, act.fleet);
    } else if act.StoreRevision? {
      PublisherFrame(s.m, w, w', act);
      assert PublisherOk(s.m, ws, w.db, PublisherOf(w, act.i));
      StoreGrows(w, PublisherOf(w, act.i).rev);
    }
  }

  // ---------------------------------------------------------------- revisions and publishers

  lemma DbStays(m: Manager, ws: seq<World>, w': World, db: Db)
    requires DbOk(m, ws, db)
    ensures DbOk(m, ws + [w'], db)
  {
    hide LogOk, RevisionOk;
    OkStays(m, ws, w');
  }

  lemma StoredOk(m: Manager, ws: seq<World>, db: Db, rev: Revision)
    requires DbOk(m, ws, db) && RevisionOk(m, ws, rev) && rev.fleet in db.fleets
    requires 1 <= rev.number <= PublishedNumber(db, rev.fleet) + 1
    ensures DbOk(m, ws, Created(db, rev, true).0)
  {
    hide LogOk, SourcesSeen, CompilesTo, NumberTaken;
    StoringKeepsLog(db, rev);
    var r' := rev.(id := db.lastId + 1);
    var hosts, certs :| SourcesSeen(ws, rev.fleet, hosts, certs) && BuiltFrom(m, rev, hosts, certs);
    assert BuiltFrom(m, r', hosts, certs);
    assert RevisionOk(m, ws, r');
  }

  lemma DbStep(s: Setup, ws: seq<World>, w': World, act: Action)
    requires Inv(s, ws) && Next(s, Last(ws), w', act)
    ensures DbOk(s.m, ws + [w'], w'.db)
  {
    hide LogOk, RevisionOk, ProviderOk, Created, OperatorStep, PublisherStep, ProviderStep, PublishedNumber;
    var w := Last(ws);
    StepFrame(s, w, w', act);
    if act.AddFleet? {
      OperatorFrame(w, w', act);
      AddFleetKeeps(w.db, act.fleet);
    } else if act.StoreRevision? {
      PublisherFrame(s.m, w, w', act);
      assert PublisherOk(s.m, ws, w.db, PublisherOf(w, act.i));
      StoredOk(s.m, ws, w.db, PublisherOf(w, act.i).rev);
    }
    DbStays(s.m, ws, w', w'.db);
  }

  lemma PublisherStays(m: Manager, ws: seq<World>, w': World, pb: Publisher)
    requires ws != [] && PublisherOk(m, ws, Last(ws).db, pb) && Grows(Last(ws), w')
    ensures PublisherOk(m, ws + [w'], w'.db, pb)
  {
    hide RevisionOk, CompilesTo, HostsSeen, SourcesSeen, PublishedNumber;
    OkStays(m, ws, w');
    SeenStays(m, ws, w');
  }

  lemma HostsSeenNow(ws: seq<World>, f: string)
    requires ws != []
    ensures HostsSeen(ws, f, HostsOf(Last(ws), f))
  {
  }

  lemma CertsSeenNow(ws: seq<World>, f: string, hs: seq<ProxyHost>)
    requires ws != [] && HostsSeen(ws, f, hs)
    ensures SourcesSeen(ws, f, hs, CertsOf(Last(ws), f))
  {
    hide HostsOf;
    var j :| 0 <= j < |ws| && HostsOf(ws[j], f) == hs;
    assert 0 <= j <= |ws| - 1 < |ws| && CertsOf(ws[|ws| - 1], f) == CertsOf(Last(ws), f);
  }

  lemma FreshOk(m: Manager, ws: seq<World>, f: string, n: int, hs: seq<ProxyHost>, cs: seq<Certificate>, c: Compiled)
    requires SourcesSeen(ws, f, hs, cs) && CompilesTo(m.p, hs, cs, Success(c)) && n >= 1
    ensures RevisionOk(m, ws, FreshRevision(m, f, n, hs, cs, c))
  {
    hide SourcesSeen, CompilesTo, BuiltFrom, Sealed;
    FreshIsCoherent(m, f, n, hs, cs, c);
  }

  lemma RollbackOk(m: Manager, ws: seq<World>, prior: Revision, n: int)
    requires RevisionOk(m, ws, prior) && n >= 1
    ensures RevisionOk(m, ws, RollbackRevision(m, prior, n))
  {
    hide SourcesSeen, BuiltFrom, Sealed;
    var hs, cs :| SourcesSeen(ws, prior.fleet, hs, cs) && BuiltFrom(m, prior, hs, cs);
    RollbackIsCoherent(m, prior, n, hs, cs);
  }

  // The publisher that moved, judged in the world before its step.
  lemma MovedPublisher(s: Setup, ws: seq<World>, w': World, act: Action)
    requires Inv(s, ws) && IsPublisher(act) && Next(s, Last(ws), w', act)
    ensures PublisherOk(s.m, ws, Last(ws).db, PublisherOf(w', act.i))
  {
    hide RevisionOk, CompilesTo, HostsSeen, SourcesSeen, ProviderOk, FreshRevision, RollbackRevision, LogOk, Created, IsTop;
    hide OperatorStep, ProviderStep, PublishedNumber;
    var w := Last(ws);
    assert PublisherOk(s.m, ws, w.db, PublisherOf(w, act.i));
    match act {
      case ListHosts(i, f) => HostsSeenNow(ws, f);
      case ListCerts(i) => CertsSeenNow(ws, PublisherOf(w, i).fleet, PublisherOf(w, i).hosts);
      case TakeNumber(i, n) =>
        var pb := PublisherOf(w, i);
        NextNumber(w.db, pb.fleet, n);
        LogPositive(w.db);
        FreshOk(s.m, ws, pb.fleet, n, pb.hosts, pb.certs, pb.c);
        SignedFields(s.m, pb.fleet, n, pb.hosts, pb.certs, pb.c);
      case TakeRollbackNumber(i, n) =>
        var pb := PublisherOf(w, i);
        NextNumber(w.db, pb.prior.fleet, n);
        LogPositive(w.db);
        RollbackOk(s.m, ws, pb.prior, n);
        RolledFields(s.m, pb.prior, n);
      case _ =>
    }
  }

  lemma SignedFields(m: Manager, f: string, n: int, hs: seq<ProxyHost>, cs: seq<Certificate>, c: Compiled)
    ensures FreshRevision(m, f, n, hs, cs, c).fleet == f && FreshRevision(m, f, n, hs, cs, c).number == n
  {
  }

  lemma RolledFields(m: Manager, prior: Revision, n: int)
    ensures RollbackRevision(m, prior, n).fleet == prior.fleet && RollbackRevision(m, prior, n).number == n
  {
  }

  lemma PublishersStep(s: Setup, ws: seq<World>, w': World, act: Action)
    requires Inv(s, ws) && Next(s, Last(ws), w', act)
    ensures forall i :: PublisherOk(s.m, ws + [w'], w'.db, PublisherOf(w', i))
  {
    hide PublisherOk, DbOk, ProviderOk, LogOk, Next, Grows, PublisherOf;
    var w := Last(ws);
    StepGrows(s, ws, w', act);
    StepFrame(s, w, w', act);
    if IsPublisher(act) { MovedPublisher(s, ws, w', act); }
    forall i ensures PublisherOk(s.m, ws + [w'], w'.db, PublisherOf(w', i)) {
      assert PublisherOk(s.m, ws, w.db, PublisherOf(w, i));
      assert PublisherOk(s.m, ws, w.db, PublisherOf(w', i));
      PublisherStays(s.m, ws, w', PublisherOf(w', i));
    }
  }

  // ---------------------------------------------------------------- agents

  lemma TrustStays(s: Setup, ws: seq<World>, w': World, a: string)
    requires a in s.configs
    ensures forall r :: Good(s.m, ws, a, r) ==> Good(s.m, ws + [w'], a, r)
    ensures forall r :: Trusted(s, ws, a, r) ==> Trusted(s, ws + [w'], a, r)
  {
    hide Genuine, ValidResponse, Verified, EtagOf;
    OkStays(s.m, ws, w');
  }

  lemma ProviderStays(s: Setup, ws: seq<World>, w': World, a: string, pr: AgentProcess)
    requires ws != [] && a in s.configs && Grows(Last(ws), w') && DbPositive(w'.db)
    requires ProviderOk(s, ws, a, pr, Latest(Last(ws), a))
    ensures ProviderOk(s, ws + [w'], a, pr, Latest(w', a))
  {
    hide Good, Trusted, RevisionOk, PublishedAt, EtagMatches, Latest;
    LatestGrows(Last(ws), w', a);
    TrustStays(s, ws, w', a);
    OkStays(s.m, ws, w');
    SeenStays(s.m, ws, w');
    if pr.phase.RevisionRead? {
      var j :| PublishedAt(ws, j, Last(ws).agents[a].fleet, pr.phase.rev);
      assert PublishedAt(ws + [w'], j, Last(ws + [w']).agents[a].fleet, pr.phase.rev);
    }
  }

  // Reading the published revision: it is the newest one, and a good one.
  lemma ReadRevisionOk(s: Setup, ws: seq<World>, a: string)
    requires Inv(s, ws) && a in Last(ws).agents && Published(Last(ws).db, Last(ws).agents[a].fleet).Some?
    ensures var rev := Published(Last(ws).db, Last(ws).agents[a].fleet).value;
      && RevisionOk(s.m, ws, rev) && rev.number == Latest(Last(ws), a)
      && PublishedAt(ws, |ws| - 1, Last(ws).agents[a].fleet, rev)
  {
    hide RevisionOk, ProviderOk, PublisherOk, LogOk;
    var db := Last(ws).db;
    var id := db.fleets[Last(ws).agents[a].fleet].published.value;
    assert id in db.revisions;
    assert RevisionOk(s.m, ws, db.revisions[id]);
  }

  // Answering: the response is genuine and sealed.
  lemma AnswerGood(s: Setup, ws: seq<World>, a: string, j: int, rev: Revision, r: Response)
    requires ws != [] && a in Last(ws).agents && PublishedAt(ws, j, Last(ws).agents[a].fleet, rev)
    requires RevisionOk(s.m, ws, rev) && Answers(s.m, a, Last(ws).agents[a].labels, rev, r)
    ensures Good(s.m, ws, a, r) && r.revision == rev.number
  {
    hide Answers, EtagOf, SourcesSeen, BuiltFrom;
    AnswerIsSealed(s.m, a, Last(ws).agents[a].labels, rev, r);
    assert AnsweredAt(s.m, ws, |ws| - 1, a, Last(ws).agents[a].fleet, rev, r);
  }

  predicate IsBoot(act: Action) {
    act.ReadCache? || act.StartWithoutCache? || act.OfferCached? || act.NoteCached? || act.Crash?
  }

  predicate IsAsk(act: Action) {
    act.Ask? || act.ServerReadsRevision? || act.ServerAnswers? || act.PollFails? || act.TakeNotModified?
  }

  lemma BootKeeps(s: Setup, ws: seq<World>, w': World, act: Action)
    requires ws != [] && IsBoot(act) && act.agent in s.configs && ProviderStep(s, Last(ws), w', act.agent, act)
    requires ProviderOk(s, ws, act.agent, ProviderOf(Last(ws), act.agent), Latest(Last(ws), act.agent))
    ensures ProviderOk(s, ws, act.agent, ProviderOf(w', act.agent), Latest(Last(ws), act.agent))
  {
    hide Genuine, EtagOf, RevisionOk, PublishedAt, EtagMatches, Latest, Answers, Verified, ValidResponse;
  }

  lemma AskKeeps(s: Setup, ws: seq<World>, w': World, act: Action)
    requires Inv(s, ws) && IsAsk(act) && act.agent in s.configs && ProviderStep(s, Last(ws), w', act.agent, act)
    ensures ProviderOk(s, ws, act.agent, ProviderOf(w', act.agent), Latest(Last(ws), act.agent))
  {
    hide DbOk, PublisherOk, Good, Trusted, RevisionOk, PublishedAt, EtagMatches, Latest, Answers, Verified, ValidResponse;
    var w, a := Last(ws), act.agent;
    var pr := ProviderOf(w, a);
    assert ProviderOk(s, ws, a, pr, Latest(w, a));
    match act {
      case ServerReadsRevision(_) => ReadRevisionOk(s, ws, a);
      case ServerAnswers(_, r) =>
        var j :| PublishedAt(ws, j, w.agents[a].fleet, pr.phase.rev);
        AnswerGood(s, ws, a, j, pr.phase.rev, r);
        GoodTag(s, ws, a, r);
      case _ =>
    }
  }

  lemma GoodTag(s: Setup, ws: seq<World>, a: string, r: Response)
    requires Good(s.m, ws, a, r)
    ensures EtagFor(r, r.etag) == r.etag
  {
  }

  lemma BodyKeeps(s: Setup, ws: seq<World>, w': World, act: Action)
    requires ws != [] && !IsOperator(act) && !IsPublisher(act) && !IsBoot(act) && !IsAsk(act)
    requires act.agent in s.configs && ProviderStep(s, Last(ws), w', act.agent, act)
    requires ProviderOk(s, ws, act.agent, ProviderOf(Last(ws), act.agent), Latest(Last(ws), act.agent))
    ensures ProviderOk(s, ws, act.agent, ProviderOf(w', act.agent), Latest(Last(ws), act.agent))
  {
    hide Good, RevisionOk, PublishedAt, EtagMatches, Latest, Answers, Verified, ValidResponse;
  }

  lemma MovedProvider(s: Setup, ws: seq<World>, w': World, act: Action)
    requires Inv(s, ws) && !IsOperator(act) && !IsPublisher(act) && Next(s, Last(ws), w', act)
    ensures ProviderOk(s, ws, act.agent, ProviderOf(w', act.agent), Latest(Last(ws), act.agent))
  {
    hide DbOk, PublisherOk, ProviderOk, Latest, ProviderStep;
    var w, a := Last(ws), act.agent;
    assert ProviderOk(s, ws, a, ProviderOf(w, a), Latest(w, a));
    if IsBoot(act) { BootKeeps(s, ws, w', act); }
    else if IsAsk(act) { AskKeeps(s, ws, w', act); }
    else { BodyKeeps(s, ws, w', act); }
  }

  lemma ProvidersStep(s: Setup, ws: seq<World>, w': World, act: Action)
    requires Inv(s, ws) && Next(s, Last(ws), w', act)
    ensures forall a :: a in s.configs ==> ProviderOk(s, ws + [w'], a, ProviderOf(w', a), Latest(w', a))
  {
    hide PublisherOk, DbOk, ProviderOk, LogOk, Next, Latest, Grows, ProviderOf;
    var w := Last(ws);
    StepGrows(s, ws, w', act);
    StepFrame(s, w, w', act);
    LogPositive(w'.db);
    if !IsOperator(act) && !IsPublisher(act) { MovedProvider(s, ws, w', act); }
    forall a | a in s.configs ensures ProviderOk(s, ws + [w'], a, ProviderOf(w', a), Latest(w', a)) {
      assert ProviderOk(s, ws, a, ProviderOf(w, a), Latest(w, a));
      assert ProviderOk(s, ws, a, ProviderOf(w', a), Latest(w, a));
      ProviderStays(s, ws, w', a, ProviderOf(w', a));
    }
  }

  /** Every step of every component keeps the invariant. */
  lemma StepKeepsInv(s: Setup, ws: seq<World>, w': World, act: Action)
    requires Inv(s, ws) && Next(s, Last(ws), w', act)
    ensures Inv(s, ws + [w'])
  {
    hide PublisherOk, DbOk, ProviderOk, Next, Latest;
    DbStep(s, ws, w', act);
    PublishersStep(s, ws, w', act);
    ProvidersStep(s, ws, w', act);
  }

  lemma StartInv(s: Setup)
    ensures Inv(s, [START])
  {
  }

  ghost function Upto(run: Run, n: nat): seq<World>
    requires n < |run.worlds|
  {
    run.worlds[..n + 1]
  }

  /** The invariant holds at every moment of every run. */
  lemma {:induction false} RunKeepsInv(s: Setup, run: Run, n: nat)
    requires IsRun(s, run) && n < |run.worlds|
    ensures Inv(s, Upto(run, n))
  {
    hide Inv, Next;
    if n == 0 {
      StartInv(s);
      assert Upto(run, 0) == [START];
    } else {
      RunKeepsInv(s, run, n - 1);
      StepKeepsInv(s, Upto(run, n - 1), run.worlds[n], run.actions[n - 1]);
      assert Upto(run, n) == Upto(run, n - 1) + [run.worlds[n]];
    }
  }
}
