/** What operators and agents can rely on, over every run. */
module ProtocolResults {
  import opened Wrappers
  import opened Json
  import opened Model
  import opened Compiler
  import opened AgentConfig
  import opened RevisionStore
  import opened Publishing
  import opened Routing
  import opened MiddlewareRouting
  import opened ProviderPlugin
  import opened Protocol
  import opened ProtocolInvariants

  /** Whatever an agent has offered Traefik, at any moment of any run and also
      right after a restart from its cache, is an answer the manager built for
      that agent, from a revision that was published when the manager read it
      and with labels the agent had when it answered. It is not empty, is not
      meant for another agent or fleet, and its signature verifies under the
      key the agent is configured with. */
  lemma OfferedConfigIsGenuine(s: Setup, run: Run, n: nat, a: string)
    requires IsRun(s, run) && n < |run.worlds| && a in s.configs
    requires ProviderOf(run.worlds[n], a).st.offered.Some?
    ensures var cfg, r := s.configs[a], ProviderOf(run.worlds[n], a).st.offered.value;
      && Genuine(s.m, Upto(run, n), a, r)
      && r.config != Null && r.config != Obj(map[])
      && (r.agent == "" || r.agent == cfg.agent) && (r.fleet == "" || r.fleet == cfg.fleet)
      && (cfg.signingPublicKey != "" ==>
            r.signature != "" && (r.alg == "" || r.alg == "ed25519") &&
            s.m.crypto.verifies(cfg.signingPublicKey, s.m.p.encode(r.config), r.signature))
  {
    hide IsRun, Genuine, DbOk, PublisherOk, PhaseOk, CacheOk;
    RunKeepsInv(s, run, n);
    assert ProviderOk(s, Upto(run, n), a, ProviderOf(run.worlds[n], a), Latest(run.worlds[n], a));
  }

  /** Different configurations whose hashes agree in their first 64 bits. */
  ghost predicate Collision(p: Platform, x: Value, y: Value) {
    x != y && p.digest(p.encode(x)) % 0x1_0000_0000_0000_0000 == p.digest(p.encode(y)) % 0x1_0000_0000_0000_0000
  }

  /** 304 is sound: when the manager answers 304, the configuration the agent
      offered last is the one the manager has just computed, unless the
      truncated hash collides on exactly these two. */
  lemma NotModifiedIsSound(s: Setup, run: Run, n: nat, a: string)
    requires IsRun(s, run) && n < |run.worlds| && a in s.configs
    requires ProviderOf(run.worlds[n], a).phase.GotNotModified?
    ensures var pr := ProviderOf(run.worlds[n], a); var computed := pr.phase.computed;
      && pr.st.offered.Some? && Genuine(s.m, Upto(run, n), a, computed)
      && (pr.st.offered.value.config == computed.config ||
          Collision(s.m.p, pr.st.offered.value.config, computed.config))
  {
    hide IsRun, Genuine, Verified, DbOk, PublisherOk, CacheOk, EtagOf, EtagMatches;
    RunKeepsInv(s, run, n);
    var pr := ProviderOf(run.worlds[n], a);
    assert ProviderOk(s, Upto(run, n), a, pr, Latest(run.worlds[n], a));
    EtagMatchesIsEquality(s.m.p, pr.st.offered.value.config, pr.phase.computed.config);
    TagsAgreeIff(s.m.p, pr.st.offered.value.config, pr.phase.computed.config);
  }

  /** Between polls a non-empty tag names the configuration offered last, across
      restarts too. */
  lemma TagNamesLastOffer(s: Setup, run: Run, n: nat, a: string)
    requires IsRun(s, run) && n < |run.worlds| && a in s.configs
    requires ProviderOf(run.worlds[n], a).phase.Idle? && ProviderOf(run.worlds[n], a).st.lastETag != ""
    ensures var st := ProviderOf(run.worlds[n], a).st;
      st.offered.Some? && st.lastETag == EtagOf(s.m.p, st.offered.value.config)
  {
    hide IsRun, Genuine, Verified, DbOk, PublisherOk, CacheOk, EtagOf;
    RunKeepsInv(s, run, n);
    assert ProviderOk(s, Upto(run, n), a, ProviderOf(run.worlds[n], a), Latest(run.worlds[n], a));
  }

  lemma OwnStepKeepsApplied(s: Setup, w: World, w': World, act: Action)
    requires !IsOperator(act) && !IsPublisher(act) && act.agent in s.configs && ProviderStep(s, w, w', act.agent, act) && !act.Crash?
    requires var pr := ProviderOf(w, act.agent);
      && (pr.phase.CacheOffered? ==> pr.st.lastApplied <= pr.phase.c.response.revision)
      && (pr.phase.Offered? ==> pr.st.lastApplied <= pr.phase.r.revision)
    ensures ProviderOf(w, act.agent).st.lastApplied <= ProviderOf(w', act.agent).st.lastApplied
  {
    hide EtagMatches, Answers, Verified, ValidResponse;
  }

  lemma StepKeepsApplied(s: Setup, ws: seq<World>, w': World, act: Action, a: string)
    requires Inv(s, ws) && Next(s, Last(ws), w', act) && act != Crash(a) && a in s.configs
    ensures ProviderOf(Last(ws), a).st.lastApplied <= ProviderOf(w', a).st.lastApplied
  {
    hide DbOk, PublisherOk, OfferedOk, EtagMatches, Latest, Genuine, EtagOf, RevisionOk, TagNamesOffer, PublishedAt;
    hide ProviderStep, PublisherStep, OperatorStep;
    assert ProviderOk(s, ws, a, ProviderOf(Last(ws), a), Latest(Last(ws), a));
    StepFrame(s, Last(ws), w', act);
    if !IsOperator(act) && !IsPublisher(act) && act.agent == a {
      OwnStepKeepsApplied(s, Last(ws), w', act);
    }
  }

  lemma CrashLeavesTheFile(s: Setup, w: World, w': World, a: string)
    requires Next(s, w, w', Crash(a))
    ensures ProviderOf(w', a).st == AgentState("", 0, None, ProviderOf(w, a).st.cache)
  {
  }

  /** The revision an agent reports never exceeds the fleet's published one and
      never goes down while its process lives; when it ends, only the file stays. */
  lemma AppliedRevisionIsMonotone(s: Setup, run: Run, n: nat, a: string)
    requires IsRun(s, run) && n < |run.worlds| && a in s.configs
    ensures 0 <= ProviderOf(run.worlds[n], a).st.lastApplied <= Latest(run.worlds[n], a)
    ensures n + 1 < |run.worlds| && run.actions[n] != Crash(a) ==>
      ProviderOf(run.worlds[n], a).st.lastApplied <= ProviderOf(run.worlds[n + 1], a).st.lastApplied
    ensures n + 1 < |run.worlds| && run.actions[n] == Crash(a) ==>
      ProviderOf(run.worlds[n + 1], a).st == AgentState("", 0, None, ProviderOf(run.worlds[n], a).st.cache)
  {
    hide Next, DbOk, PublisherOk, Latest, PhaseOk, CacheOk, OfferedOk;
    RunKeepsInv(s, run, n);
    assert ProviderOk(s, Upto(run, n), a, ProviderOf(run.worlds[n], a), Latest(run.worlds[n], a));
    if n + 1 < |run.worlds| && run.actions[n] != Crash(a) {
      StepKeepsApplied(s, Upto(run, n), run.worlds[n + 1], run.actions[n], a);
    } else if n + 1 < |run.worlds| {
      CrashLeavesTheFile(s, run.worlds[n], run.worlds[n + 1], a);
    }
  }

  // ---------------------------------------------------------------- the revision log

  /** At every moment of every run the numbers of a fleet's revisions are exactly
      those from 1 to that of the revision its published pointer names, each
      used once; a fleet without a pointer has none. */
  lemma LogIsGapless(s: Setup, run: Run, n: nat, fleet: string, k: int)
    requires IsRun(s, run) && n < |run.worlds|
    ensures LogOk(run.worlds[n].db)
    ensures var db := run.worlds[n].db;
      fleet in db.fleets ==>
        match db.fleets[fleet].published
        case None => forall id :: id in db.revisions ==> db.revisions[id].fleet != fleet
        case Some(top) =>
          && top in db.revisions && db.revisions[top].fleet == fleet
          && ((exists id :: id in db.revisions && db.revisions[id].fleet == fleet && db.revisions[id].number == k) <==>
                1 <= k <= db.revisions[top].number)
    ensures var db := run.worlds[n].db;
      forall i, j :: (i in db.revisions && j in db.revisions && db.revisions[i].fleet == db.revisions[j].fleet &&
                      db.revisions[i].number == db.revisions[j].number) ==> i == j
  {
    hide IsRun, PublisherOk, ProviderOk, LogOk;
    RunKeepsInv(s, run, n);
    var db := run.worlds[n].db;
    if fleet in db.fleets { LogNumbers(db, fleet, k); }
    forall i, j | i in db.revisions && j in db.revisions && db.revisions[i].fleet == db.revisions[j].fleet &&
                  db.revisions[i].number == db.revisions[j].number
      ensures i == j
    {
      NumberedOnce(db, i, j);
    }
  }

  lemma LogNumbers(db: Db, f: string, k: int)
    requires LogOk(db) && f in db.fleets
    ensures match db.fleets[f].published
      case None => forall id :: id in db.revisions ==> db.revisions[id].fleet != f
      case Some(top) =>
        && top in db.revisions && db.revisions[top].fleet == f
        && ((exists id :: id in db.revisions && db.revisions[id].fleet == f && db.revisions[id].number == k) <==>
              1 <= k <= db.revisions[top].number)
  {
    assert FleetLogOk(db, f);
    if db.fleets[f].published.Some? && 1 <= k <= PublishedNumber(db, f) {
      assert NumberTaken(db, f, k);
      var id :| Holds(db, f, k, id);
    }
  }

  lemma NumberedOnce(db: Db, i: int, j: int)
    requires LogOk(db) && i in db.revisions && j in db.revisions
    requires db.revisions[i].fleet == db.revisions[j].fleet && db.revisions[i].number == db.revisions[j].number
    ensures i == j
  {
    hide FleetLogOk;
    assert SameNumber(db.revisions[i], db.revisions[j]);
  }

  /** A stored revision is never changed or removed later. */
  lemma {:induction false} RevisionsAreImmutable(s: Setup, run: Run, i: nat, j: nat, id: int)
    requires IsRun(s, run) && i <= j < |run.worlds| && id in run.worlds[i].db.revisions
    ensures id in run.worlds[j].db.revisions && run.worlds[j].db.revisions[id] == run.worlds[i].db.revisions[id]
    ensures forall f :: PublishedNumber(run.worlds[i].db, f) <= PublishedNumber(run.worlds[j].db, f)
    decreases j - i
  {
    hide Inv, Next, PublishedNumber;
    if i < j {
      RevisionsAreImmutable(s, run, i, j - 1, id);
      RunKeepsInv(s, run, j - 1);
      StepGrows(s, Upto(run, j - 1), run.worlds[j], run.actions[j - 1]);
    }
  }

  /** A publisher about to store can only succeed with the next number, or
      conflict and change nothing, however long ago it took its number. */
  lemma StaleNumbersOnlyConflict(s: Setup, run: Run, n: nat, i: int)
    requires IsRun(s, run) && n < |run.worlds| && PublisherOf(run.worlds[n], i).ReadyToStore?
    ensures var db, rev := run.worlds[n].db, PublisherOf(run.worlds[n], i).rev;
      var (db', res) := Created(db, rev, true);
      if rev.number == PublishedNumber(db, rev.fleet) + 1 then
        res == Success(rev.(id := db.lastId + 1)) && Published(db', rev.fleet) == Some(res.value) && LogOk(db')
      else rev.number <= PublishedNumber(db, rev.fleet) && res == Failure(Conflict) && db' == db
  {
    hide IsRun, ProviderOk, LogOk, RevisionOk, Created, PublishedNumber;
    RunKeepsInv(s, run, n);
    assert PublisherOk(s.m, Upto(run, n), run.worlds[n].db, PublisherOf(run.worlds[n], i));
    StoringKeepsLog(run.worlds[n].db, PublisherOf(run.worlds[n], i).rev);
  }

  /** Every stored revision, through any chain of rollbacks, is sealed and was
      compiled by some publish from hosts and certificates its fleet really had. */
  lemma StoredRevisionsAreCoherent(s: Setup, run: Run, n: nat, id: int)
    requires IsRun(s, run) && n < |run.worlds| && id in run.worlds[n].db.revisions
    ensures RevisionOk(s.m, Upto(run, n), run.worlds[n].db.revisions[id])
    ensures Sound(s.m.crypto) && s.m.signer.Some? ==>
      var r := run.worlds[n].db.revisions[id];
      s.m.crypto.verifies(s.m.crypto.publicKey(s.m.signer.value), s.m.p.encode(r.config), r.signature)
  {
    hide IsRun, ProviderOk, LogOk, PublisherOk, SourcesSeen, BuiltFrom;
    RunKeepsInv(s, run, n);
  }

  /** No stored revision can fail an agent: whatever its labels, an answer exists
      and every recompile succeeds. */
  lemma NoRevisionFailsAnAgent(s: Setup, run: Run, n: nat, id: int, a: string, labels: seq<string>)
    returns (r: Response)
    requires IsRun(s, run) && n < |run.worlds| && id in run.worlds[n].db.revisions
    ensures var rev := run.worlds[n].db.revisions[id];
      && Answers(s.m, a, labels, rev, r)
      && (rev.hosts != [] ==> forall x :: CompilesTo(s.m.p, AgentHosts(rev.hosts, labels), rev.certs, x) ==> x.Success?)
  {
    hide IsRun, SourcesSeen, BuiltFrom, Answers, CompilesTo, Sealed, AgentHosts;
    StoredRevisionsAreCoherent(s, run, n, id);
    var rev := run.worlds[n].db.revisions[id];
    var hosts, certs :| SourcesSeen(Upto(run, n), rev.fleet, hosts, certs) && BuiltFrom(s.m, rev, hosts, certs);
    r := EveryAgentIsAnswered(s.m, rev, hosts, certs, a, labels);
  }

  /** An agent configured with the manager's public key can verify every answer
      the manager makes for it. */
  lemma HonestAnswersVerify(s: Setup, a: string, labels: seq<string>, rev: Revision, r: Response)
    requires Sound(s.m.crypto) && s.m.signer.Some? && a in s.configs
    requires s.configs[a].signingPublicKey == s.m.crypto.publicKey(s.m.signer.value)
    requires Sealed(s.m, rev) && Answers(s.m, a, labels, rev, r)
    ensures Verified(s.m.p, s.m.crypto, s.configs[a], r)
  {
    hide Answers;
    AnswerIsSealed(s.m, a, labels, rev, r);
  }

  // Every compiled document has its http section, even without hosts.
  lemma DocumentNotEmpty(p: Platform, hosts: seq<ProxyHost>, certs: seq<Certificate>, c: Compiled)
    requires CompilesTo(p, hosts, certs, Success(c))
    ensures c.config != Null && c.config != Obj(map[])
  {
    hide CompilesTo;
    var order, pool := CompiledParts(p, hosts, certs, c);
    HttpIsThere(p, order, pool);
  }

  lemma HttpIsThere(p: Platform, order: seq<ProxyHost>, pool: seq<Certificate>)
    ensures DocumentOf(p, order, pool).Obj? && "http" in DocumentOf(p, order, pool).fields
  {
    hide HttpSection, L4Section, CertPool, HttpMapsOf;
  }

  // The answer passes the agent's structural checks.
  lemma AnswerIsValid(m: Manager, cfg: ProviderConfig, labels: seq<string>, rev: Revision,
                      hosts: seq<ProxyHost>, certs: seq<Certificate>, r: Response)
    requires BuiltFrom(m, rev, hosts, certs) && Answers(m, cfg.agent, labels, rev, r) && cfg.fleet == rev.fleet
    ensures ValidResponse(cfg, r)
  {
    hide CompilesTo, AgentHosts;
    if rev.hosts == [] {
      DocumentNotEmpty(m.p, hosts, certs, Compiled(rev.config, rev.etag));
    } else {
      var c :| RecompiledAs(m, cfg.agent, labels, rev, r, c);
      DocumentNotEmpty(m.p, AgentHosts(rev.hosts, labels), rev.certs, c);
    }
  }

  /** The agent is configured for its own id and for this fleet, and with no key
      or with that of a manager that signs. */
  ghost predicate ConfiguredFor(s: Setup, a: string, fleet: string) {
    && a in s.configs && s.configs[a].agent == a && s.configs[a].fleet == fleet
    && (s.configs[a].signingPublicKey != "" ==>
          Sound(s.m.crypto) && s.m.signer.Some? && s.configs[a].signingPublicKey == s.m.crypto.publicKey(s.m.signer.value))
  }

  /** No honest update is ever rejected: at every moment of every run, whatever
      the manager answers from any stored revision passes every check of an agent
      that is configured for that fleet, also when no host reaches the agent. */
  lemma HonestAnswersAreAccepted(s: Setup, run: Run, n: nat, id: int, a: string, labels: seq<string>, r: Response)
    requires IsRun(s, run) && n < |run.worlds| && id in run.worlds[n].db.revisions
    requires ConfiguredFor(s, a, run.worlds[n].db.revisions[id].fleet)
    requires Answers(s.m, a, labels, run.worlds[n].db.revisions[id], r)
    ensures ValidResponse(s.configs[a], r) && Verified(s.m.p, s.m.crypto, s.configs[a], r)
  {
    hide IsRun, Answers, CompilesTo, SourcesSeen, Sealed, BuiltFrom, Sound;
    var rev := run.worlds[n].db.revisions[id];
    StoredRevisionsAreCoherent(s, run, n, id);
    var hosts, certs :| SourcesSeen(Upto(run, n), rev.fleet, hosts, certs) && BuiltFrom(s.m, rev, hosts, certs);
    AnswerIsValid(s.m, s.configs[a], labels, rev, hosts, certs, r);
    if s.configs[a].signingPublicKey != "" { HonestAnswersVerify(s, a, labels, rev, r); }
  }

  /** The plugin's start is the protocol's small steps run without interruption. */
  lemma UninterruptedBootIsBoot(s: Setup, w0: World, w1: World, w2: World, w3: World, a: string)
    requires a in s.configs && ProviderStep(s, w0, w1, a, ReadCache(a))
    requires ProviderStep(s, w1, w2, a, OfferCached(a)) && ProviderStep(s, w2, w3, a, NoteCached(a))
    ensures ProviderOf(w3, a) == AgentProcess(Idle, Boot(s.configs[a], ProviderOf(w0, a).st))
  {
    hide ValidResponse;
  }

  /** The plugin's poll is the protocol's small steps run without interruption. */
  lemma UninterruptedPollIsPoll(s: Setup, w0: World, w1: World, w2: World, w3: World, w4: World,
                                a: string, header: string, saves: bool)
    requires a in s.configs && ProviderOf(w0, a).phase.GotBody?
    requires ProviderOf(w0, a).phase.etag == EtagFor(ProviderOf(w0, a).phase.r, header)
    requires ProviderStep(s, w0, w1, a, AcceptBody(a)) && ProviderStep(s, w1, w2, a, OfferBody(a))
    requires ProviderStep(s, w2, w3, a, NoteBody(a))
    requires ProviderStep(s, w3, w4, a, if saves && s.configs[a].cacheFile then SaveBody(a) else SkipSave(a))
    ensures ProviderOf(w4, a) == AgentProcess(Idle,
      AfterPoll(s.m.p, s.m.crypto, s.configs[a], ProviderOf(w0, a).st, Body(ProviderOf(w0, a).phase.r, header), saves))
  {
    hide Verified, ValidResponse;
  }

  // ---------------------------------------------------------------- compiler and protocol together

  // A document routes every request, and runs it through the middlewares, as
  // this list of hosts asks.
  ghost predicate DoesAs(p: Platform, doc: Value, hosts: seq<ProxyHost>) {
    (forall q :: RoutesAs(doc, hosts, q)) && BehavesAs(p, doc, hosts)
  }

  // An agent's answer does so for the hosts of the published snapshot that reach it.
  ghost predicate RoutesAnswer(m: Manager, ws: seq<World>, k: int, a: string, fleet: string, rev: Revision, r: Response) {
    AnsweredAt(m, ws, k, a, fleet, rev, r) && DoesAs(m.p, r.config, AgentHosts(rev.hosts, ws[k].agents[a].labels))
  }

  lemma CompiledDoes(p: Platform, hosts: seq<ProxyHost>, certs: seq<Certificate>, c: Compiled)
    requires CompilesTo(p, hosts, certs, Success(c))
    ensures DoesAs(p, c.config, hosts)
  {
    hide CompilesTo, RoutesAs, BehavesAs;
    forall q ensures RoutesAs(c.config, hosts, q) { RequestsReachTheirHost(p, hosts, certs, c, q); }
    CompiledBehaves(p, hosts, certs, c);
  }

  lemma AnswerRoutes(m: Manager, rev: Revision, hosts: seq<ProxyHost>, certs: seq<Certificate>,
                     a: string, labels: seq<string>, r: Response)
    requires BuiltFrom(m, rev, hosts, certs) && Answers(m, a, labels, rev, r)
    ensures DoesAs(m.p, r.config, AgentHosts(rev.hosts, labels))
  {
    hide CompilesTo, DoesAs, Selected;
    if rev.hosts == [] {
      assert hosts == [];
      assert AgentHosts(rev.hosts, labels) == [];
      CompiledDoes(m.p, hosts, certs, Compiled(rev.config, rev.etag));
    } else {
      var c :| RecompiledAs(m, a, labels, rev, r, c);
      CompiledDoes(m.p, AgentHosts(rev.hosts, labels), rev.certs, c);
    }
  }

  lemma PublishedIsOk(s: Setup, run: Run, n: nat, j: int, fleet: string, rev: Revision)
    requires IsRun(s, run) && n < |run.worlds| && PublishedAt(Upto(run, n), j, fleet, rev)
    ensures exists hosts, certs :: BuiltFrom(s.m, rev, hosts, certs)
  {
    hide IsRun, LogOk, PublisherOk, ProviderOk, BuiltFrom, Sealed, SourcesSeen;
    RunKeepsInv(s, run, j);
    var db := run.worlds[j].db;
    assert Upto(run, n)[j] == run.worlds[j] == Last(Upto(run, j));
    var id := db.fleets[fleet].published.value;
    assert DbOk(s.m, Upto(run, j), db) && id in db.revisions && db.revisions[id] == rev;
    assert RevisionOk(s.m, Upto(run, j), rev);
  }

  /** End to end: whatever configuration an agent has offered Traefik, it routes
      every request, and defines every middleware, as the hosts of a revision
      published at an earlier moment ask for, restricted to the hosts whose
      selector matches the labels the agent had when it was answered. */
  lemma AgentsRouteWhatWasPublished(s: Setup, run: Run, n: nat, a: string)
    requires IsRun(s, run) && n < |run.worlds| && a in s.configs
    requires ProviderOf(run.worlds[n], a).st.offered.Some?
    ensures var ws, r := Upto(run, n), ProviderOf(run.worlds[n], a).st.offered.value;
      exists j, k, fleet, rev :: PublishedAt(ws, j, fleet, rev) && j <= k && RoutesAnswer(s.m, ws, k, a, fleet, rev, r)
  {
    hide IsRun, Verified, BuiltFrom, DoesAs, Answers, AgentHosts, PublishedAt;
    OfferedConfigIsGenuine(s, run, n, a);
    var ws, r := Upto(run, n), ProviderOf(run.worlds[n], a).st.offered.value;
    var j, k, fleet, rev :| PublishedAt(ws, j, fleet, rev) && j <= k && AnsweredAt(s.m, ws, k, a, fleet, rev, r);
    PublishedIsOk(s, run, n, j, fleet, rev);
    var hosts, certs :| BuiltFrom(s.m, rev, hosts, certs);
    AnswerRoutes(s.m, rev, hosts, certs, a, ws[k].agents[a].labels, r);
    assert RoutesAnswer(s.m, ws, k, a, fleet, rev, r);
  }
}
