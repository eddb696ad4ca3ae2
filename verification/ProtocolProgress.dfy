/** What one poll brings: nothing older than the poll itself, and in the end
    what the fleet has published. */
module ProtocolProgress {
  import opened Wrappers
  import opened Json
  import opened Model
  import opened RevisionStore
  import opened Publishing
  import opened ProviderPlugin
  import opened Protocol
  import opened ProtocolInvariants
  import opened ProtocolResults

  lemma StepOf(s: Setup, run: Run, n: nat)
    requires IsRun(s, run) && n < |run.actions|
    ensures n + 1 < |run.worlds| && Next(s, run.worlds[n], run.worlds[n + 1], run.actions[n])
  {
    hide Next;
  }

  // ---------------------------------------------------------------- answers are fresh

  /** The response a poll has brought so far. */
  function ResponseIn(phase: Phase): Option<Response> {
    match phase
    case GotNotModified(r) => Some(r)
    case GotBody(r, _) => Some(r)
    case Accepted(r, _) => Some(r)
    case Offered(r, _) => Some(r)
    case Noted(r, _) => Some(r)
    case _ => None
  }

  // The revision was published at some moment from m on.
  ghost predicate PublishedSince(ws: seq<World>, m: nat, fleet: string, rev: Revision) {
    exists j :: m <= j && PublishedAt(ws, j, fleet, rev)
  }

  /** The response was built for the agent, from a revision published at some
      moment from m on and with labels it had then or later. */
  ghost predicate FreshAnswer(m: Manager, ws: seq<World>, since: nat, a: string, r: Response) {
    exists j, k, fleet, rev :: since <= j <= k && PublishedAt(ws, j, fleet, rev) && AnsweredAt(m, ws, k, a, fleet, rev, r)
  }

  ghost predicate FreshPhase(m: Manager, ws: seq<World>, since: nat, a: string, phase: Phase)
    requires ws != []
  {
    && (phase.RevisionRead? ==> a in Last(ws).agents && PublishedSince(ws, since, Last(ws).agents[a].fleet, phase.rev))
    && (ResponseIn(phase).Some? ==> FreshAnswer(m, ws, since, a, ResponseIn(phase).value))
  }

  lemma FreshStays(m: Manager, ws: seq<World>, w: World, since: nat, a: string)
    ensures forall fleet, rev :: PublishedSince(ws, since, fleet, rev) ==> PublishedSince(ws + [w], since, fleet, rev)
    ensures forall r :: FreshAnswer(m, ws, since, a, r) ==> FreshAnswer(m, ws + [w], since, a, r)
  {
    hide PublishedAt, AnsweredAt;
    SeenStays(m, ws, w);
    forall r | FreshAnswer(m, ws, since, a, r) ensures FreshAnswer(m, ws + [w], since, a, r) {
      var j, k, fleet, rev :| since <= j <= k && PublishedAt(ws, j, fleet, rev) && AnsweredAt(m, ws, k, a, fleet, rev, r);
      assert PublishedAt(ws + [w], j, fleet, rev) && AnsweredAt(m, ws + [w], k, a, fleet, rev, r);
    }
  }

  // The agent's own steps other than Ask.
  lemma OwnStepFresh(s: Setup, ws: seq<World>, w': World, since: nat, a: string, act: Action)
    requires ws != [] && a in s.configs && ProviderStep(s, Last(ws), w', a, act) && !act.Ask? && since < |ws|
    requires FreshPhase(s.m, ws, since, a, ProviderOf(Last(ws), a).phase)
    ensures FreshPhase(s.m, ws, since, a, ProviderOf(w', a).phase)
  {
    hide Answers, Verified, ValidResponse, EtagMatches, EtagFor;
    var w := Last(ws);
    if act.ServerReadsRevision? {
      assert PublishedAt(ws, |ws| - 1, w.agents[a].fleet, Published(w.db, w.agents[a].fleet).value);
    } else if act.ServerAnswers? {
      var rev, fleet := ProviderOf(w, a).phase.rev, w.agents[a].fleet;
      var j :| since <= j && PublishedAt(ws, j, fleet, rev);
      assert AnsweredAt(s.m, ws, |ws| - 1, a, fleet, rev, act.r);
      assert FreshAnswer(s.m, ws, since, a, act.r);
    }
  }

  lemma StepFresh(s: Setup, ws: seq<World>, w': World, since: nat, a: string, act: Action)
    requires ws != [] && a in s.configs && Next(s, Last(ws), w', act) && act != Ask(a) && since < |ws|
    requires FreshPhase(s.m, ws, since, a, ProviderOf(Last(ws), a).phase)
    ensures FreshPhase(s.m, ws + [w'], since, a, ProviderOf(w', a).phase)
  {
    hide ProviderStep, OperatorStep, PublisherStep, FreshAnswer, PublishedSince;
    StepFrame(s, Last(ws), w', act);
    FreshStays(s.m, ws, w', since, a);
    if !IsOperator(act) && !IsPublisher(act) && act.agent == a {
      OwnStepFresh(s, ws, w', since, a, act);
      ProviderFrame(s, Last(ws), w', a, act);
    }
  }

  // Between an Ask and the next one.
  ghost predicate SincePoll(run: Run, m: nat, n: nat, a: string) {
    && m < n < |run.worlds| && |run.worlds| == |run.actions| + 1 && run.actions[m] == Ask(a)
    && forall x :: m < x < n ==> run.actions[x] != Ask(a)
  }

  lemma {:induction false} FreshAlong(s: Setup, run: Run, m: nat, n: nat, a: string)
    requires IsRun(s, run) && a in s.configs && SincePoll(run, m, n, a)
    ensures FreshPhase(s.m, Upto(run, n), m + 1, a, ProviderOf(run.worlds[n], a).phase)
    decreases n
  {
    hide Next, FreshPhase, IsRun;
    StepOf(s, run, n - 1);
    if n == m + 1 {
      AskIsFresh(s, run.worlds[m], run.worlds[n], Upto(run, n), m + 1, a);
    } else {
      FreshAlong(s, run, m, n - 1, a);
      StepFresh(s, Upto(run, n - 1), run.worlds[n], m + 1, a, run.actions[n - 1]);
      assert Upto(run, n) == Upto(run, n - 1) + [run.worlds[n]];
    }
  }

  lemma AskIsFresh(s: Setup, w: World, w': World, ws: seq<World>, since: nat, a: string)
    requires a in s.configs && Next(s, w, w', Ask(a)) && ws != [] && Last(ws) == w'
    ensures FreshPhase(s.m, ws, since, a, ProviderOf(w', a).phase)
  {
    hide FreshAnswer, PublishedSince;
  }

  /** Whatever a poll brings, a new body or a 304, was built from a revision that
      was published after the poll began: the answer is never older than the
      question, and its number is at least the one published at the question. */
  lemma AnswersAreFresh(s: Setup, run: Run, m: nat, n: nat, a: string)
    requires IsRun(s, run) && a in s.configs && SincePoll(run, m, n, a)
    requires ResponseIn(ProviderOf(run.worlds[n], a).phase).Some?
    ensures var r := ResponseIn(ProviderOf(run.worlds[n], a).phase).value;
      && FreshAnswer(s.m, Upto(run, n), m + 1, a, r)
      && Latest(run.worlds[m], a) <= r.revision
  {
    hide IsRun, FreshAnswer;
    FreshAlong(s, run, m, n, a);
    FreshNumber(s, run, m, n, a, ResponseIn(ProviderOf(run.worlds[n], a).phase).value);
  }

  lemma FreshNumber(s: Setup, run: Run, m: nat, n: nat, a: string, r: Response)
    requires IsRun(s, run) && m < n < |run.worlds| && FreshAnswer(s.m, Upto(run, n), m + 1, a, r)
    ensures Latest(run.worlds[m], a) <= r.revision
  {
    hide IsRun, Answers;
    var ws := Upto(run, n);
    var j, k, fleet, rev :| m + 1 <= j <= k && PublishedAt(ws, j, fleet, rev) && AnsweredAt(s.m, ws, k, a, fleet, rev, r);
    assert ws[j] == run.worlds[j] && ws[k] == run.worlds[k];
    AnswerNumber(s.m, a, ws[k].agents[a].labels, rev, r);
    WorldsGrow(s, run, m, j, fleet, a);
    WorldsGrow(s, run, m, k, fleet, a);
    RunKeepsInv(s, run, m);
    LogPositive(run.worlds[m].db);
    RunKeepsInv(s, run, j);
    RevisionPositive(s, run, j, fleet);
  }

  lemma RevisionPositive(s: Setup, run: Run, j: nat, fleet: string)
    requires j < |run.worlds| && Inv(s, Upto(run, j))
    ensures PublishedNumber(run.worlds[j].db, fleet) >= 0
  {
    hide ProviderOk, PublisherOk, RevisionOk, LogOk;
    LogPositive(run.worlds[j].db);
  }

  lemma AnswerNumber(m: Manager, a: string, labels: seq<string>, rev: Revision, r: Response)
    requires Answers(m, a, labels, rev, r)
    ensures r.revision == rev.number
  {
  }

  // The published number only grows, and an agent stays in its fleet.
  ghost predicate Kept(w: World, w': World, fleet: string, a: string) {
    && PublishedNumber(w.db, fleet) <= PublishedNumber(w'.db, fleet)
    && (a in w.agents ==> a in w'.agents && w'.agents[a].fleet == w.agents[a].fleet)
  }

  lemma StepKeeps(s: Setup, ws: seq<World>, w': World, act: Action, fleet: string, a: string)
    requires Inv(s, ws) && Next(s, Last(ws), w', act)
    ensures Kept(Last(ws), w', fleet, a)
  {
    hide Inv, Next, PublishedNumber, LogOk;
    StepGrows(s, ws, w', act);
  }

  lemma KeptTransitive(u: World, v: World, w: World, fleet: string, a: string)
    requires Kept(u, v, fleet, a) && Kept(v, w, fleet, a)
    ensures Kept(u, w, fleet, a)
  {
    hide PublishedNumber;
  }

  lemma {:induction false} KeptAlong(s: Setup, run: Run, i: nat, j: nat, fleet: string, a: string)
    requires IsRun(s, run) && i <= j < |run.worlds|
    ensures Kept(run.worlds[i], run.worlds[j], fleet, a)
    decreases j
  {
    hide PublishedNumber, Inv, Next;
    if i < j {
      assert |run.actions| == |run.worlds| - 1;
      hide IsRun, Kept;
      KeptAlong(s, run, i, j - 1, fleet, a);
      StepOf(s, run, j - 1);
      RunKeepsInv(s, run, j - 1);
      LastOf(run, j - 1);
      StepKeeps(s, Upto(run, j - 1), run.worlds[j], run.actions[j - 1], fleet, a);
      KeptTransitive(run.worlds[i], run.worlds[j - 1], run.worlds[j], fleet, a);
    }
  }

  lemma LastOf(run: Run, n: nat)
    requires n < |run.worlds|
    ensures Last(Upto(run, n)) == run.worlds[n]
  {
  }

  lemma WorldsGrow(s: Setup, run: Run, i: nat, j: nat, fleet: string, a: string)
    requires IsRun(s, run) && i <= j < |run.worlds|
    ensures PublishedNumber(run.worlds[i].db, fleet) <= PublishedNumber(run.worlds[j].db, fleet)
    ensures a in run.worlds[i].agents ==> a in run.worlds[j].agents && run.worlds[j].agents[a].fleet == run.worlds[i].agents[a].fleet
  {
    hide IsRun, PublishedNumber;
    KeptAlong(s, run, i, j, fleet, a);
  }

  // ---------------------------------------------------------------- polls converge

  /** What the manager has to offer the agent now: an answer from the current
      revision for the agent's current labels. */
  ghost predicate Current(s: Setup, w: World, a: string, r: Response) {
    && a in w.agents && Published(w.db, w.agents[a].fleet).Some?
    && Answers(s.m, a, w.agents[a].labels, Published(w.db, w.agents[a].fleet).value, r)
  }

  /** The agent offers Traefik the current configuration, up to a collision. */
  ghost predicate UpToDate(s: Setup, w: World, a: string, offered: Option<Response>) {
    offered.Some? && exists r :: Current(s, w, a, r) && SameConfig(s.m.p, offered.value.config, r.config)
  }

  ghost predicate SameConfig(p: Platform, x: Value, y: Value) { x == y || Collision(p, x, y) }

  // How far a poll in a quiet system has come towards that.
  ghost predicate Approaching(s: Setup, w: World, a: string, pr: AgentProcess) {
    match pr.phase
    case Asked(_) => true
    case RevisionRead(_, rev) => a in w.agents && Published(w.db, w.agents[a].fleet) == Some(rev)
    case GotNotModified(r) => Current(s, w, a, r)
    case GotBody(r, _) => Current(s, w, a, r)
    case Accepted(r, _) => Current(s, w, a, r)
    case Offered(r, _) => Current(s, w, a, r) && pr.st.offered == Some(r)
    case Noted(r, _) => Current(s, w, a, r) && pr.st.offered == Some(r)
    case Idle => UpToDate(s, w, a, pr.st.offered)
    case _ => false
  }

  // No operator or publisher acts, and the agent's poll is not broken off.
  ghost predicate Quiet(a: string, act: Action) {
    !IsOperator(act) && !IsPublisher(act) && act != PollFails(a) && act != Crash(a) && act != Ask(a)
  }

  lemma QuietStep(s: Setup, w: World, w': World, a: string, act: Action)
    requires a in s.configs && Next(s, w, w', act) && Quiet(a, act) && Approaching(s, w, a, ProviderOf(w, a))
    requires var pr := ProviderOf(w, a); pr.phase.GotNotModified? ==>
      pr.st.offered.Some? && SameConfig(s.m.p, pr.st.offered.value.config, pr.phase.computed.config)
    ensures w'.db == w.db && w'.agents == w.agents && Approaching(s, w', a, ProviderOf(w', a))
  {
    hide Answers, Verified, ValidResponse, EtagMatches, SameConfig, EtagFor;
    ProviderFrame(s, w, w', act.agent, act);
    if act.agent == a {
      QuietOwnStep(s, w, w', a, act);
    }
    SameWorlds(s, w, w', a, ProviderOf(w', a));
  }

  lemma QuietOwnStep(s: Setup, w: World, w': World, a: string, act: Action)
    requires a in s.configs && ProviderStep(s, w, w', a, act) && !act.PollFails? && !act.Crash? && !act.Ask?
    requires Approaching(s, w, a, ProviderOf(w, a))
    requires var pr := ProviderOf(w, a); pr.phase.GotNotModified? ==>
      pr.st.offered.Some? && SameConfig(s.m.p, pr.st.offered.value.config, pr.phase.computed.config)
    ensures Approaching(s, w, a, ProviderOf(w', a))
  {
    hide Answers, Verified, ValidResponse, EtagMatches, Collision, EtagFor;
    var pr := ProviderOf(w, a);
    if act.SaveBody? || act.SkipSave? {
      assert Current(s, w, a, pr.phase.r) && SameConfig(s.m.p, pr.st.offered.value.config, pr.phase.r.config);
    }
  }

  lemma SameWorlds(s: Setup, w: World, w': World, a: string, pr: AgentProcess)
    requires w'.db == w.db && w'.agents == w.agents
    ensures Approaching(s, w', a, pr) <==> Approaching(s, w, a, pr)
  {
    hide SameConfig, Answers;
    assert forall r :: Current(s, w', a, r) <==> Current(s, w, a, r);
  }

  // Nothing published or labelled has changed since the poll began.
  ghost predicate StillQuiet(s: Setup, w: World, v: World, a: string) {
    v.db == w.db && v.agents == w.agents && Approaching(s, v, a, ProviderOf(v, a))
  }

  lemma AskIsQuiet(s: Setup, w: World, v: World, a: string)
    requires a in s.configs && Next(s, w, v, Ask(a))
    ensures StillQuiet(s, w, v, a)
  {
    hide Current, SameConfig;
  }

  lemma QuietGoesOn(s: Setup, run: Run, n: nat, w: World, a: string)
    requires IsRun(s, run) && a in s.configs && 0 < n < |run.worlds| && n - 1 < |run.actions| && Quiet(a, run.actions[n - 1])
    requires StillQuiet(s, w, run.worlds[n - 1], a)
    ensures StillQuiet(s, w, run.worlds[n], a)
  {
    hide IsRun, Next, Quiet, Genuine, Approaching, Collision, ProviderOf;
    StepOf(s, run, n - 1);
    var v := run.worlds[n - 1];
    if ProviderOf(v, a).phase.GotNotModified? { NotModifiedIsSound(s, run, n - 1, a); }
    QuietStep(s, v, run.worlds[n], a, run.actions[n - 1]);
  }

  lemma {:induction false} QuietAlong(s: Setup, run: Run, m: nat, n: nat, a: string)
    requires IsRun(s, run) && a in s.configs && m < n < |run.worlds| && run.actions[m] == Ask(a)
    requires forall x :: m < x < n ==> Quiet(a, run.actions[x])
    ensures StillQuiet(s, run.worlds[m], run.worlds[n], a)
    decreases n
  {
    assert |run.actions| == |run.worlds| - 1;
    hide IsRun, Quiet, StillQuiet, Next;
    if n == m + 1 {
      StepOf(s, run, m);
      AskIsQuiet(s, run.worlds[m], run.worlds[n], a);
    } else {
      QuietAlong(s, run, m, n - 1, a);
      assert Quiet(a, run.actions[n - 1]);
      QuietGoesOn(s, run, n, run.worlds[m], a);
    }
  }

  /** Polls converge. When no operator or publisher acts during a poll and it is
      not broken off, then at its end the configuration on offer is an answer
      from the current revision for the agent's current labels, up to a
      collision of the hash; whatever the agent had offered or cached before. */
  lemma PollsConverge(s: Setup, run: Run, m: nat, n: nat, a: string)
    requires IsRun(s, run) && a in s.configs && m < n < |run.worlds| && run.actions[m] == Ask(a)
    requires forall x :: m < x < n ==> Quiet(a, run.actions[x])
    requires ProviderOf(run.worlds[n], a).phase.Idle?
    ensures UpToDate(s, run.worlds[m], a, ProviderOf(run.worlds[n], a).st.offered)
  {
    hide IsRun, Quiet, Current;
    QuietAlong(s, run, m, n, a);
    SameWorlds(s, run.worlds[m], run.worlds[n], a, ProviderOf(run.worlds[n], a));
  }

  // ---------------------------------------------------------------- polls can go on

  ghost predicate Enabled(s: Setup, w: World, act: Action) { exists w' :: Next(s, w, w', act) }

  predicate InPoll(phase: Phase) {
    phase.Asked? || phase.RevisionRead? || ResponseIn(phase).Some?
  }

  // A step of the agent's poll that does not break it off.
  ghost predicate PollGoesOn(s: Setup, w: World, a: string) {
    exists act :: Quiet(a, act) && act.agent == a && Enabled(s, w, act)
  }

  lemma AskedGoesOn(s: Setup, w: World, a: string)
    requires a in s.configs && ProviderOf(w, a).phase.Asked? && a in w.agents && Published(w.db, w.agents[a].fleet).Some?
    ensures PollGoesOn(s, w, a)
  {
    var pr := ProviderOf(w, a);
    var w' := WithProvider(w, a, RevisionRead(pr.phase.ifNoneMatch, Published(w.db, w.agents[a].fleet).value), pr.st);
    assert Next(s, w, w', ServerReadsRevision(a));
    assert Quiet(a, ServerReadsRevision(a)) && Enabled(s, w, ServerReadsRevision(a));
  }

  lemma ReadGoesOn(s: Setup, w: World, a: string, r: Response)
    requires a in s.configs && ProviderOf(w, a).phase.RevisionRead? && a in w.agents
    requires Answers(s.m, a, w.agents[a].labels, ProviderOf(w, a).phase.rev, r)
    ensures PollGoesOn(s, w, a)
  {
    hide Answers, Reply;
    var pr := ProviderOf(w, a);
    var w' := WithProvider(w, a, Reply(pr.phase.ifNoneMatch, r), pr.st);
    assert Next(s, w, w', ServerAnswers(a, r));
    assert Quiet(a, ServerAnswers(a, r)) && Enabled(s, w, ServerAnswers(a, r));
  }

  lemma BodyGoesOn(s: Setup, w: World, a: string)
    requires a in s.configs && ProviderOf(w, a).phase.GotBody?
    requires ValidResponse(s.configs[a], ProviderOf(w, a).phase.r)
    requires Verified(s.m.p, s.m.crypto, s.configs[a], ProviderOf(w, a).phase.r)
    ensures PollGoesOn(s, w, a)
  {
    hide ValidResponse, Verified;
    var pr := ProviderOf(w, a);
    assert Next(s, w, WithProvider(w, a, Accepted(pr.phase.r, pr.phase.etag), pr.st), AcceptBody(a));
    assert Quiet(a, AcceptBody(a)) && Enabled(s, w, AcceptBody(a));
  }

  lemma RestGoesOn(s: Setup, w: World, a: string)
    requires a in s.configs
    requires var ph := ProviderOf(w, a).phase; ph.GotNotModified? || ph.Accepted? || ph.Offered? || ph.Noted?
    ensures PollGoesOn(s, w, a)
  {
    var pr := ProviderOf(w, a);
    var st := pr.st;
    if pr.phase.GotNotModified? {
      assert Next(s, w, WithProvider(w, a, Idle, st), TakeNotModified(a));
      assert Quiet(a, TakeNotModified(a)) && Enabled(s, w, TakeNotModified(a));
    } else if pr.phase.Accepted? {
      assert Next(s, w, WithProvider(w, a, Offered(pr.phase.r, pr.phase.etag), Offer(st, pr.phase.r)), OfferBody(a));
      assert Quiet(a, OfferBody(a)) && Enabled(s, w, OfferBody(a));
    } else if pr.phase.Offered? {
      assert Next(s, w, WithProvider(w, a, Noted(pr.phase.r, pr.phase.etag), Note(st, pr.phase.r, pr.phase.etag)), NoteBody(a));
      assert Quiet(a, NoteBody(a)) && Enabled(s, w, NoteBody(a));
    } else {
      assert Next(s, w, WithProvider(w, a, Idle, st), SkipSave(a));
      assert Quiet(a, SkipSave(a)) && Enabled(s, w, SkipSave(a));
    }
  }

  // The revision that was read is a stored one.
  lemma ReadIsStored(s: Setup, run: Run, n: nat, j: nat, fleet: string, rev: Revision) returns (id: int)
    requires IsRun(s, run) && j <= n < |run.worlds| && PublishedAt(Upto(run, n), j, fleet, rev)
    ensures id in run.worlds[n].db.revisions && run.worlds[n].db.revisions[id] == rev && rev.fleet == fleet
  {
    hide IsRun, PublisherOk, ProviderOk, RevisionOk;
    assert Upto(run, n)[j] == run.worlds[j];
    RunKeepsInv(s, run, j);
    var db := run.worlds[j].db;
    id := db.fleets[fleet].published.value;
    assert FleetLogOk(db, fleet);
    RevisionsAreImmutable(s, run, j, n, id);
  }

  /** No poll has to fail: at every moment of every run, an agent that is
      configured for its fleet and has begun a poll can take another step of it,
      as long as the fleet has a published revision. */
  lemma PollsCanGoOn(s: Setup, run: Run, n: nat, a: string)
    requires IsRun(s, run) && n < |run.worlds| && a in run.worlds[n].agents && ConfiguredFor(s, a, run.worlds[n].agents[a].fleet)
    requires InPoll(ProviderOf(run.worlds[n], a).phase)
    requires Published(run.worlds[n].db, run.worlds[n].agents[a].fleet).Some?
    ensures PollGoesOn(s, run.worlds[n], a)
  {
    hide IsRun, Answers, Genuine, Verified, ValidResponse, PollGoesOn, Sound, PublishedAt, AnsweredAt;
    var w, ws := run.worlds[n], Upto(run, n);
    var pr := ProviderOf(w, a);
    RunKeepsInv(s, run, n);
    assert ProviderOk(s, ws, a, pr, Latest(w, a));
    if pr.phase.Asked? {
      AskedGoesOn(s, w, a);
    } else if pr.phase.RevisionRead? {
      var j :| PublishedAt(ws, j, w.agents[a].fleet, pr.phase.rev);
      AtMoment(ws, j, w.agents[a].fleet, pr.phase.rev);
      var id := ReadIsStored(s, run, n, j, w.agents[a].fleet, pr.phase.rev);
      var r := NoRevisionFailsAnAgent(s, run, n, id, a, w.agents[a].labels);
      ReadGoesOn(s, w, a, r);
    } else if pr.phase.GotBody? {
      BodyIsAccepted(s, run, n, a, pr.phase.r);
      BodyGoesOn(s, w, a);
    } else {
      RestGoesOn(s, w, a);
    }
  }

  lemma AtMoment(ws: seq<World>, j: int, fleet: string, rev: Revision)
    requires PublishedAt(ws, j, fleet, rev)
    ensures 0 <= j < |ws|
  {
  }

  lemma BodyIsAccepted(s: Setup, run: Run, n: nat, a: string, r: Response)
    requires IsRun(s, run) && n < |run.worlds| && a in run.worlds[n].agents && ConfiguredFor(s, a, run.worlds[n].agents[a].fleet)
    requires Genuine(s.m, Upto(run, n), a, r)
    ensures ValidResponse(s.configs[a], r) && Verified(s.m.p, s.m.crypto, s.configs[a], r)
  {
    hide IsRun, Answers, Verified, ValidResponse, Sound, PublishedAt;
    var ws := Upto(run, n);
    var j, k, fleet, rev :| PublishedAt(ws, j, fleet, rev) && j <= k && AnsweredAt(s.m, ws, k, a, fleet, rev, r);
    AtMoment(ws, j, fleet, rev);
    assert ws[k] == run.worlds[k];
    WorldsGrow(s, run, k, n, fleet, a);
    var id := ReadIsStored(s, run, n, j, fleet, rev);
    HonestAnswersAreAccepted(s, run, n, id, a, ws[k].agents[a].labels, r);
  }
}
