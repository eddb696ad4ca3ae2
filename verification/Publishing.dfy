/** Publishing and rolling back revisions, and answering an agent's poll. */
module Publishing {
  import opened Wrappers
  import opened Text
  import opened Json
  import opened Model
  import opened Compiler
  import opened AgentConfig
  import opened RevisionStore
  import opened Routing

  /** Ed25519, kept abstract: keys, signatures and messages are strings. */
  datatype Crypto = Crypto(
    sign: (string, string) -> string,            // private key, message
    verifies: (string, string, string) -> bool,  // public key, message, signature
    publicKey: string -> string
  )

  const ALG := "ed25519"

  /** What stays fixed while the manager runs. */
  datatype Manager = Manager(p: Platform, crypto: Crypto, signer: Option<string>)

  function SignatureOf(m: Manager, config: Value): string {
    match m.signer case Some(k) => m.crypto.sign(k, m.p.encode(config)) case None => ""
  }

  function AlgOf(m: Manager): string {
    if m.signer.Some? then ALG else ""
  }

  // signRevision: without a signer the revision keeps the empty fields it was built with.
  function Signed(m: Manager, r: Revision): Revision {
    if m.signer.None? then r else r.(signature := SignatureOf(m, r.config), alg := ALG)
  }

  function FreshRevision(m: Manager, fleet: string, number: int, hosts: seq<ProxyHost>, certs: seq<Certificate>, c: Compiled): Revision {
    Signed(m, Revision(0, fleet, number, c.config, SnapshotHosts(hosts), SnapshotCerts(certs), c.etag, "", ""))
  }

  function RollbackRevision(m: Manager, prior: Revision, number: int): Revision {
    Signed(m, Revision(0, prior.fleet, number, prior.config, prior.hosts, prior.certs, prior.etag, "", ""))
  }

  // ---------------------------------------------------------------- coherence

  ghost predicate SignedBy(m: Manager, config: Value, signature: string, alg: string) {
    signature == SignatureOf(m, config) && alg == AlgOf(m)
  }

  /** The entity tag is the hash of the configuration, and the signature is the
      manager's over it. */
  ghost predicate Sealed(m: Manager, r: Revision) {
    r.etag == EtagOf(m.p, r.config) && SignedBy(m, r.config, r.signature, r.alg)
  }

  /** Compiling these sources gives this revision's configuration, and its
      snapshots are theirs. */
  ghost predicate BuiltFrom(m: Manager, r: Revision, hosts: seq<ProxyHost>, certs: seq<Certificate>) {
    && CompilesTo(m.p, hosts, certs, Success(Compiled(r.config, r.etag)))
    && r.hosts == SnapshotHosts(hosts) && r.certs == SnapshotCerts(certs)
  }

  lemma FreshIsCoherent(m: Manager, fleet: string, number: int, hosts: seq<ProxyHost>, certs: seq<Certificate>, c: Compiled)
    requires CompilesTo(m.p, hosts, certs, Success(c))
    ensures var r := FreshRevision(m, fleet, number, hosts, certs, c);
      Sealed(m, r) && BuiltFrom(m, r, hosts, certs) && r.fleet == fleet && r.number == number
  {
    hide CompilesTo;
    var order, pool := CompiledParts(m.p, hosts, certs, c);
    assert Compiled(c.config, c.etag) == c;
  }

  lemma RollbackIsCoherent(m: Manager, prior: Revision, number: int, hosts: seq<ProxyHost>, certs: seq<Certificate>)
    requires Sealed(m, prior) && BuiltFrom(m, prior, hosts, certs)
    ensures var r := RollbackRevision(m, prior, number);
      Sealed(m, r) && BuiltFrom(m, r, hosts, certs) && r.fleet == prior.fleet && r.number == number && r.config == prior.config
  {
  }

  /** Signatures are not empty, and checking accepts what the same key signed. */
  ghost predicate Sound(crypto: Crypto) {
    forall k, msg :: crypto.sign(k, msg) != "" && crypto.verifies(crypto.publicKey(k), msg, crypto.sign(k, msg))
  }

  // ---------------------------------------------------------------- the handlers, run without interference

  datatype PublishError = CompileFailed(compile: CompileError) | StoreFailed(store: StoreError)

  /** handlePublishRevision and publishRevisionForFleet, from sources already
      listed: compile, take a number, snapshot, sign, store. Alone against the
      store it can only fail by the compile or an unknown fleet. */
  method Publish(m: Manager, store: Store, fleet: string, hosts: seq<ProxyHost>, certs: seq<Certificate>)
    returns (r: Result<Revision, PublishError>)
    requires LogOk(store.State())
    modifies store
    ensures LogOk(store.State())
    ensures r.Failure? ==> store.State() == old(store.State())
    ensures r.Failure? ==> match r.error
      case StoreFailed(e) =>
        e == NotFound && fleet !in old(store.fleets) && exists c :: CompilesTo(m.p, hosts, certs, Success(c))
      case CompileFailed(e) => CompilesTo(m.p, hosts, certs, Failure(e))
    ensures r.Success? ==>
      && Published(store.State(), fleet) == Some(r.value)
      && r.value.number == PublishedNumber(old(store.State()), fleet) + 1
      && Sealed(m, r.value) && BuiltFrom(m, r.value, hosts, certs)
      && forall id :: id in old(store.revisions) ==> id in store.revisions && store.revisions[id] == old(store.revisions)[id]
  {
    hide CompilesTo, LogOk, IsTop;
    var compiled := Compile(m.p, hosts, certs);
    if compiled.Failure? {
      return Failure(CompileFailed(compiled.error));
    }
    var num := store.NextRevisionNumber(fleet);
    if num.Failure? {
      return Failure(StoreFailed(num.error));
    }
    NextNumber(store.State(), fleet, num.value);
    var rev := FreshRevision(m, fleet, num.value, hosts, certs, compiled.value);
    FreshIsCoherent(m, fleet, num.value, hosts, certs, compiled.value);
    StoringKeepsLog(store.State(), rev);
    StoredKeepsOld(store.State(), rev);
    var saved := store.CreateRevision(rev, true);
    r := Success(saved.value);
  }

  lemma StoredKeepsOld(db: Db, r: Revision)
    requires LogOk(db) && r.fleet in db.fleets
    ensures forall id :: id in db.revisions ==>
      id in Stored(db, r, true).revisions && Stored(db, r, true).revisions[id] == db.revisions[id]
  {
  }

  // The outcome of storing a rollback of the revision with this id.
  ghost predicate RolledBack(m: Manager, before: Db, after: Db, fleet: string, number: int, id: int, r: Revision) {
    && Holds(before, fleet, number, id)
    && Published(after, fleet) == Some(r)
    && var prior := before.revisions[id];
    && r.fleet == fleet && r.number == PublishedNumber(before, fleet) + 1
    && r.config == prior.config && r.hosts == prior.hosts && r.certs == prior.certs && r.etag == prior.etag
    && (m.signer.Some? ==> r.signature == m.crypto.sign(m.signer.value, m.p.encode(prior.config)) && r.alg == "ed25519")
    && (m.signer.None? ==> r.signature == "" && r.alg == "")
  }

  /** handleRollback: the old configuration under a new number, signed again. */
  method Rollback(m: Manager, store: Store, fleet: string, number: int) returns (r: Result<Revision, StoreError>)
    requires LogOk(store.State())
    modifies store
    ensures LogOk(store.State())
    ensures r.Failure? ==> store.State() == old(store.State()) && r.error == NotFound
    ensures r.Failure? <==> !NumberTaken(old(store.State()), fleet, number)
    ensures r.Success? ==> exists id :: RolledBack(m, old(store.State()), store.State(), fleet, number, id, r.value)
  {
    hide LogOk, IsTop;
    var prior := store.GetRevision(fleet, number);
    if prior.Failure? {
      return Failure(prior.error);
    }
    ghost var before := store.State();
    ghost var id :| Holds(before, fleet, number, id) && before.revisions[id] == prior.value;
    FleetOfRevision(store.State(), fleet, number);
    var num := store.NextRevisionNumber(fleet);
    NextNumber(store.State(), fleet, num.value);
    var rev := RollbackRevision(m, prior.value, num.value);
    StoringKeepsLog(store.State(), rev);
    var saved := store.CreateRevision(rev, true);
    r := Success(saved.value);
    assert RolledBack(m, before, store.State(), fleet, number, id, r.value);
  }

  lemma FleetOfRevision(db: Db, fleet: string, number: int)
    requires LogOk(db) && NumberTaken(db, fleet, number)
    ensures fleet in db.fleets
  {
    var id :| Holds(db, fleet, number, id);
  }

  // ---------------------------------------------------------------- answering a poll

  datatype Response = Response(fleet: string, agent: string, revision: int, config: Value, etag: string,
                               signature: string, alg: string)

  /** What buildAgentConfigResponse may answer for an agent with these labels. */
  ghost predicate Answers(m: Manager, agent: string, labels: seq<string>, rev: Revision, resp: Response) {
    if rev.hosts == [] then
      resp == Response(rev.fleet, agent, rev.number, rev.config, rev.etag, rev.signature, rev.alg)
    else exists c :: RecompiledAs(m, agent, labels, rev, resp, c)
  }

  ghost predicate RecompiledAs(m: Manager, agent: string, labels: seq<string>, rev: Revision, resp: Response, c: Compiled) {
    && CompilesTo(m.p, AgentHosts(rev.hosts, labels), rev.certs, Success(c))
    && resp == Response(rev.fleet, agent, rev.number, c.config, c.etag, SignatureOf(m, c.config), AlgOf(m))
  }

  method BuildAgentConfigResponse(m: Manager, agent: string, labels: seq<string>, rev: Revision)
    returns (r: Result<Response, CompileError>)
    ensures r.Success? ==> Answers(m, agent, labels, rev, r.value)
    ensures r.Failure? ==> rev.hosts != [] && CompilesTo(m.p, AgentHosts(rev.hosts, labels), rev.certs, Failure(r.error))
  {
    hide CompilesTo, AgentHosts;
    var resp := Response(rev.fleet, agent, rev.number, rev.config, rev.etag, rev.signature, rev.alg);
    if |rev.hosts| == 0 {
      return Success(resp);
    }
    var filtered := FilterForAgent(rev.hosts, labels);
    var res := Compile(m.p, filtered, rev.certs);
    if res.Failure? {
      return Failure(res.error);
    }
    resp := resp.(config := res.value.config, etag := res.value.etag);
    if m.signer.Some? {
      resp := resp.(signature := SignatureOf(m, res.value.config), alg := ALG);
    } else {
      resp := resp.(signature := "", alg := "");
    }
    assert RecompiledAs(m, agent, labels, rev, resp, res.value);
    r := Success(resp);
  }

  /** An answer carries the revision's number and fleet, a tag that writes the
      hash of its own configuration, and the manager's signature over it. */
  lemma AnswerIsSealed(m: Manager, agent: string, labels: seq<string>, rev: Revision, resp: Response)
    requires Sealed(m, rev) && Answers(m, agent, labels, rev, resp)
    ensures resp.fleet == rev.fleet && resp.agent == agent && resp.revision == rev.number
    ensures resp.etag == EtagOf(m.p, resp.config)
    ensures SaysDigest(resp.etag, m.p.digest(m.p.encode(resp.config)) % 0x1_0000_0000_0000_0000)
    ensures m.signer.Some? ==>
      resp.signature == m.crypto.sign(m.signer.value, m.p.encode(resp.config)) && resp.alg == "ed25519"
    ensures m.signer.None? ==> resp.signature == "" && resp.alg == ""
  {
    hide CompilesTo, AgentHosts, EtagOf, SaysDigest;
    TagSaysDigest(m.p, resp.config);
    if rev.hosts != [] {
      var c :| RecompiledAs(m, agent, labels, rev, resp, c);
      var order, pool := CompiledParts(m.p, AgentHosts(rev.hosts, labels), rev.certs, c);
    }
  }

  /** A revision built by a publish can be answered for every agent. */
  lemma EveryAgentIsAnswered(m: Manager, rev: Revision, hosts: seq<ProxyHost>, certs: seq<Certificate>,
                             agent: string, labels: seq<string>) returns (resp: Response)
    requires BuiltFrom(m, rev, hosts, certs)
    ensures Answers(m, agent, labels, rev, resp)
    ensures rev.hosts != [] ==>
      forall r :: CompilesTo(m.p, AgentHosts(rev.hosts, labels), rev.certs, r) ==> r.Success?
  {
    hide CompilesTo, AgentHosts;
    var c := EveryAgentIsServable(m.p, hosts, certs, Compiled(rev.config, rev.etag), labels);
    resp := if rev.hosts == [] then
        Response(rev.fleet, agent, rev.number, rev.config, rev.etag, rev.signature, rev.alg)
      else
        Response(rev.fleet, agent, rev.number, c.config, c.etag, SignatureOf(m, c.config), AlgOf(m));
    assert rev.hosts != [] ==> RecompiledAs(m, agent, labels, rev, resp, c);
  }

  // ---------------------------------------------------------------- conditional requests (RFC 9110, 13.1.2)

  // A weak validator compares by its opaque tag.
  function StripWeak(v: string): string {
    if HasPrefix(v, "W/") then v[2..] else v
  }

  predicate MemberIs(part: string, etag: string) { StripWeak(TrimSpace(part)) == etag }

  ghost predicate EtagMatches(header: string, etag: string) {
    exists part :: part in Split(header, ',') && MemberIs(part, etag)
  }

  /** The list member is the tag, strong or weak, with space around it. */
  ghost predicate NamesTag(part: string, etag: string) {
    StripsTo(part, etag) || StripsTo(part, "W/" + etag)
  }

  lemma StripWeakExact(v: string, etag: string)
    requires !HasPrefix(etag, "W/")
    ensures StripWeak(v) == etag <==> v == etag || v == "W/" + etag
  {
    assert |"W/"| == 2;
    if HasPrefix(v, "W/") { assert v == "W/" + v[2..]; }
    assert HasPrefix("W/" + etag, "W/") && ("W/" + etag)[2..] == etag;
  }

  lemma MemberMatches(part: string, etag: string)
    requires !HasPrefix(etag, "W/")
    ensures MemberIs(part, etag) <==> NamesTag(part, etag)
  {
    hide TrimSpace, StripsTo, StripWeak;
    StripWeakExact(TrimSpace(part), etag);
    TrimSpaceExact(part, etag);
    TrimSpaceExact(part, "W/" + etag);
  }

  /** The header matches exactly when one of its comma-separated members names
      the tag. */
  lemma EtagMatchesExact(header: string, etag: string)
    requires !HasPrefix(etag, "W/")
    ensures EtagMatches(header, etag) <==> exists part :: part in Split(header, ',') && NamesTag(part, etag)
  {
    hide MemberIs, Split, NamesTag;
    forall part ensures MemberIs(part, etag) <==> NamesTag(part, etag) { MemberMatches(part, etag); }
  }

  method MatchEtag(header: string, etag: string) returns (ok: bool)
    ensures ok <==> EtagMatches(header, etag)
    ensures !HasPrefix(etag, "W/") ==>
      (ok <==> exists part :: part in Split(header, ',') && NamesTag(part, etag))
  {
    if !HasPrefix(etag, "W/") { EtagMatchesExact(header, etag); }
    hide NamesTag;
    var parts := Split(header, ',');
    for i := 0 to |parts|
      invariant forall k :: 0 <= k < i ==> !MemberIs(parts[k], etag)
    {
      var v := TrimSpace(parts[i]);
      v := StripWeak(v);
      if v == etag {
        assert MemberIs(parts[i], etag) && parts[i] in Split(header, ',');
        return true;
      }
    }
    ok := false;
  }

  lemma EtagShape(p: Platform, config: Value)
    ensures var e := EtagOf(p, config);
      e != "" && e[0] == '"' && e[|e| - 1] == '"' && forall i :: 0 <= i < |e| ==> e[i] != ',' && e[i] != ' '
  {
    hide Hex;
    var h := Hex(p.digest(p.encode(config)), 16);
    var e := EtagOf(p, config);
    assert "\"sha256-" == ['"', 's', 'h', 'a', '2', '5', '6', '-'];
    forall i | 0 <= i < |e| ensures e[i] != ',' && e[i] != ' ' {
      if 8 <= i < 8 + |h| { assert e[i] == h[i - 8]; }
    }
  }

  lemma QuoteIsNotSpace()
    ensures !IsSpace('"')
  {
  }

  /** For the entity tags the compiler makes, If-None-Match matches exactly on equality. */
  lemma EtagMatchesIsEquality(p: Platform, a: Value, b: Value)
    ensures EtagMatches(EtagOf(p, a), EtagOf(p, b)) <==> EtagOf(p, a) == EtagOf(p, b)
  {
    hide EtagOf, TrimSpace, Split, IsSpace;
    var e := EtagOf(p, a);
    EtagShape(p, a);
    QuoteIsNotSpace();
    assert ',' !in e;
    SplitSingle(e, ',');
    TrimSpaceFixpoint(e);
    assert TrimSpace(e) == e;
    assert "W/"[0] == 'W';
    assert !HasPrefix(e, "W/");
    assert forall part :: part in Split(e, ',') <==> part == e;
    assert MemberIs(e, EtagOf(p, b)) <==> e == EtagOf(p, b);
  }
}
