/** The provider plugin: what one agent keeps between polls, and how an answer
    changes it. */
module ProviderPlugin {
  import opened Wrappers
  import opened Json
  import opened Model
  import opened Publishing

  datatype ProviderConfig = ProviderConfig(fleet: string, agent: string, signingPublicKey: string, cacheFile: bool)

  // The on-disk last-known-good file.
  datatype Cached = Cached(response: Response, etag: string)

  /** offered is the response whose configuration was last pushed to Traefik by
      this process; cache is what is on disk. */
  datatype AgentState = AgentState(lastETag: string, lastApplied: int, offered: Option<Response>, cache: Option<Cached>)

  const FRESH := AgentState("", 0, None, None)

  /** What fetchConfig can get back: an error of any kind, 304, or a body with an ETag header. */
  datatype Fetched = FetchFailed | NotModified | Body(response: Response, header: string)

  predicate ValidResponse(cfg: ProviderConfig, r: Response) {
    && (r.agent == "" || r.agent == cfg.agent)
    && (r.fleet == "" || r.fleet == cfg.fleet)
    && r.config != Null && r.config != Obj(map[])
  }

  /** verifySignature. */
  predicate Verified(p: Platform, crypto: Crypto, cfg: ProviderConfig, r: Response) {
    cfg.signingPublicKey == "" ||
    ((r.alg == "" || r.alg == ALG) && r.signature != "" &&
     crypto.verifies(cfg.signingPublicKey, p.encode(r.config), r.signature))
  }

  function EtagFor(r: Response, header: string): string {
    if header == "" then r.etag else header
  }

  // ---------------------------------------------------------------- the small steps of the plugin

  function Offer(st: AgentState, r: Response): AgentState { st.(offered := Some(r)) }

  function Note(st: AgentState, r: Response, etag: string): AgentState {
    st.(lastETag := etag, lastApplied := r.revision)
  }

  function Save(st: AgentState, r: Response, etag: string): AgentState { st.(cache := Some(Cached(r, etag))) }

  // The process ends; only the file stays.
  function Crashed(st: AgentState): AgentState { FRESH.(cache := st.cache) }

  function Boot(cfg: ProviderConfig, st: AgentState): AgentState {
    if st.cache.Some? && ValidResponse(cfg, st.cache.value.response) then
      Note(Offer(st, st.cache.value.response), st.cache.value.response, st.cache.value.etag)
    else st
  }

  function AfterPoll(p: Platform, crypto: Crypto, cfg: ProviderConfig, st: AgentState, f: Fetched, saves: bool): AgentState {
    match f
    case Body(r, header) =>
      if !ValidResponse(cfg, r) || !Verified(p, crypto, cfg, r) then st
      else
        var e := EtagFor(r, header);
        var noted := Note(Offer(st, r), r, e);
        if cfg.cacheFile && saves then Save(noted, r, e) else noted
    case _ => st
  }

  class Provider {
    const cfg: ProviderConfig
    const p: Platform
    const crypto: Crypto
    var lastETag: string
    var lastApplied: int
    var offered: Option<Response>
    var cache: Option<Cached>

    function State(): AgentState
      reads this
    {
      AgentState(lastETag, lastApplied, offered, cache)
    }

    constructor (cfg: ProviderConfig, p: Platform, crypto: Crypto, disk: Option<Cached>)
      ensures lastETag == "" && lastApplied == 0 && offered == None && cache == disk
      ensures this.cfg == cfg && this.p == p && this.crypto == crypto
    {
      this.cfg, this.p, this.crypto := cfg, p, crypto;
      lastETag, lastApplied, offered, cache := "", 0, None, disk;
    }

    /** The start of run: apply the cached configuration if there is one for this
        agent and fleet with something in it. */
    method Start()
      modifies this
      ensures State() == Boot(cfg, old(State()))
      ensures cache == old(cache)
      ensures (cache.Some? && cache.value.response.agent in {"", cfg.agent} && cache.value.response.fleet in {"", cfg.fleet} &&
               cache.value.response.config !in {Null, Obj(map[])}) ==>
        offered == Some(cache.value.response) && lastETag == cache.value.etag && lastApplied == cache.value.response.revision
      ensures cache.None? ==> State() == old(State())
      ensures cache.Some? && cache.value.response.agent !in {"", cfg.agent} ==> State() == old(State())
      ensures cache.Some? && cache.value.response.fleet !in {"", cfg.fleet} ==> State() == old(State())
      ensures cache.Some? && cache.value.response.config in {Null, Obj(map[])} ==> State() == old(State())
    {
      if cache.Some? && ValidResponse(cfg, cache.value.response) {
        Send(cache.value.response);
        lastETag, lastApplied := cache.value.etag, cache.value.response.revision;
      }
    }

    method Send(r: Response)
      modifies this`offered
      ensures offered == Some(r)
    {
      offered := Some(r);
    }

    /** poll: fetch, and on a good body send, note and save, in this order. The
        result is the revision the heartbeat reports. A fetch that fails, is not
        modified, or brings a body that is meant for someone else, is empty or is
        not signed with the configured key, changes nothing at all; any other
        body is applied. */
    method Poll(f: Fetched, saves: bool) returns (reported: int)
      modifies this
      ensures State() == AfterPoll(p, crypto, cfg, old(State()), f, saves)
      ensures reported == lastApplied
      ensures !f.Body? ==> State() == old(State())
      ensures f.Body? && f.response.agent !in {"", cfg.agent} ==> State() == old(State())
      ensures f.Body? && f.response.fleet !in {"", cfg.fleet} ==> State() == old(State())
      ensures f.Body? && f.response.config in {Null, Obj(map[])} ==> State() == old(State())
      ensures f.Body? && cfg.signingPublicKey != "" && f.response.alg !in {"", "ed25519"} ==> State() == old(State())
      ensures f.Body? && cfg.signingPublicKey != "" && f.response.signature == "" ==> State() == old(State())
      ensures (f.Body? && cfg.signingPublicKey != "" &&
               !crypto.verifies(cfg.signingPublicKey, p.encode(f.response.config), f.response.signature)) ==>
        State() == old(State())
      ensures (f.Body? && f.response.agent in {"", cfg.agent} && f.response.fleet in {"", cfg.fleet} &&
               f.response.config !in {Null, Obj(map[])} &&
               (cfg.signingPublicKey == "" ||
                (f.response.alg in {"", "ed25519"} && f.response.signature != "" &&
                 crypto.verifies(cfg.signingPublicKey, p.encode(f.response.config), f.response.signature)))) ==>
        && offered == Some(f.response) && lastApplied == f.response.revision
        && lastETag == (if f.header != "" then f.header else f.response.etag)
        && cache == (if cfg.cacheFile && saves then Some(Cached(f.response, lastETag)) else old(cache))
    {
      var prevRev := lastApplied;
      match f {
        case FetchFailed => return prevRev;
        case NotModified => return prevRev;
        case Body(r, header) =>
          if !ValidResponse(cfg, r) || !Verified(p, crypto, cfg, r) {
            return prevRev;
          }
          var etag := EtagFor(r, header);
          Send(r);
          lastETag, lastApplied := etag, r.revision;
          if cfg.cacheFile && saves {
            cache := Some(Cached(r, etag));
          }
          reported := r.revision;
      }
    }
  }
}
