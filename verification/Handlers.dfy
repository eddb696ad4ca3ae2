/** The admin handlers that publish and roll back: the store sequence, and the
    webhooks fired after it. */
module Handlers {
  import opened Wrappers
  import opened Json
  import opened Model
  import opened Sorting
  import opened Compiler
  import opened RevisionStore
  import opened Publishing
  import opened Protocol
  import AgentConfig
  import ProviderPlugin
  import opened WebhookQueue

  // ---------------------------------------------------------------- the desired state

  datatype Row<T> = Row(fleet: string, value: T)

  // The ids of a fleet's rows, each once, in any order.
  ghost predicate RowsOf<T>(ids: seq<int>, rows: map<int, Row<T>>, fleet: string) {
    && (forall i :: 0 <= i < |ids| ==> ids[i] in rows && rows[ids[i]].fleet == fleet)
    && (forall id :: id in rows && rows[id].fleet == fleet ==> id in ids)
    && (forall i, j :: 0 <= i < j < |ids| ==> ids[i] != ids[j])
  }

  function ValuesOf<T>(ids: seq<int>, rows: map<int, Row<T>>): (values: seq<T>)
    requires forall i :: 0 <= i < |ids| ==> ids[i] in rows
    ensures |values| == |ids| && forall i :: 0 <= i < |ids| ==> values[i] == rows[ids[i]].value
  {
    seq(|ids|, i requires 0 <= i < |ids| => rows[ids[i]].value)
  }

  /** A fleet's rows, each once, in order of a key. */
  ghost predicate IsListing<T(!new)>(rows: map<int, Row<T>>, fleet: string, key: T -> string, out: seq<T>) {
    exists ids :: RowsOf(ids, rows, fleet) && IsSortOf(out, ValuesOf(ids, rows), key)
  }

  // The scan and sort of ListProxyHosts and ListCertificates.
  method ListRows<T(!new)>(rows: map<int, Row<T>>, fleet: string, key: T -> string) returns (out: seq<T>)
    ensures IsListing(rows, fleet, key, out)
  {
    var values: seq<T> := [];
    ghost var ids: seq<int> := [];
    var todo := rows.Keys;
    while todo != {}
      invariant todo <= rows.Keys
      invariant forall i :: 0 <= i < |ids| ==> ids[i] in rows && rows[ids[i]].fleet == fleet && ids[i] !in todo
      invariant forall id :: id in rows && id !in todo && rows[id].fleet == fleet ==> id in ids
      invariant forall i, j :: 0 <= i < j < |ids| ==> ids[i] != ids[j]
      invariant values == ValuesOf(ids, rows)
    {
      var id := AnyOf(todo);
      todo := todo - {id};
      if rows[id].fleet == fleet {
        values := values + [rows[id].value];
        ids := ids + [id];
      }
    }
    out := SortBy(values, key);
    assert RowsOf(ids, rows, fleet);
  }

  /** The store's proxy hosts and certificates. */
  class SourceStore {
    var proxyHosts: map<int, Row<ProxyHost>>
    var certificates: map<int, Row<Certificate>>

    constructor ()
      ensures proxyHosts == map[] && certificates == map[]
    {
      proxyHosts, certificates := map[], map[];
    }

    method ListProxyHosts(fleet: string) returns (out: seq<ProxyHost>)
      ensures IsListing(proxyHosts, fleet, HostName, out)
    {
      out := ListRows(proxyHosts, fleet, HostName);
    }

    method ListCertificates(fleet: string) returns (out: seq<Certificate>)
      ensures IsListing(certificates, fleet, CertName, out)
    {
      out := ListRows(certificates, fleet, CertName);
    }

    /** The sources list as these hosts and certificates. */
    ghost predicate Lists(fleet: string, hosts: seq<ProxyHost>, certs: seq<Certificate>)
      reads this
    {
      IsListing(proxyHosts, fleet, HostName, hosts) && IsListing(certificates, fleet, CertName, certs)
    }
  }

  // ---------------------------------------------------------------- the handlers

  // The delivery payload of an event; the time of the revision is given as text.
  function Payload(p: Platform, event: string, rev: Revision, generatedAt: string): string {
    p.encode(Obj(map["event" := Str(event), "fleet_id" := Str(rev.fleet), "revision_number" := Num(rev.number as real),
                     "etag" := Str(rev.etag), "generated_at" := Str(generatedAt)]))
  }

  /** The event was fired once: one new job for each enabled subscriber, as
      EventsFireOnce describes. */
  ghost predicate Fired(before: Queue, after: Queue, fleet: string, event: string, payload: string, clock: nat -> int) {
    exists ids :: Subscribers(ids, before.hooks, fleet, event) && after == EnqueuedFor(before, ids, payload, clock)
  }

  /** publishRevisionForFleet: list, compile, number, sign and store, with no
      event fired and the fleet looked up only by the store. */
  method PublishForFleet(m: Manager, store: Store, sources: SourceStore, fleet: string) returns (r: Result<Revision, PublishError>)
    requires LogOk(store.State())
    modifies store
    ensures LogOk(store.State())
    ensures r.Failure? ==> store.State() == old(store.State())
    ensures r.Failure? ==> match r.error
      case StoreFailed(e) => e == NotFound && fleet !in old(store.fleets)
      case CompileFailed(e) => exists hosts, certs :: old(sources.Lists(fleet, hosts, certs)) && CompilesTo(m.p, hosts, certs, Failure(e))
    ensures r.Success? ==>
      && Published(store.State(), fleet) == Some(r.value)
      && r.value.number == PublishedNumber(old(store.State()), fleet) + 1 && Sealed(m, r.value)
      && exists hosts, certs :: old(sources.Lists(fleet, hosts, certs)) && BuiltFrom(m, r.value, hosts, certs)
  {
    hide CompilesTo, LogOk, Sealed, BuiltFrom, IsListing;
    var hosts := sources.ListProxyHosts(fleet);
    var certs := sources.ListCertificates(fleet);
    assert sources.Lists(fleet, hosts, certs);
    r := Publish(m, store, fleet, hosts, certs);
  }

  lemma PublishedHasFleet(db: Db, fleet: string)
    requires LogOk(db) && Published(db, fleet).Some?
    ensures Published(db, fleet).value.fleet == fleet
  {
    assert FleetLogOk(db, fleet);
  }

  /** handlePublishRevision: an unknown fleet is reported before anything is
      listed or compiled; a failure changes neither the log nor the queue; a
      success publishes what the store lists and fires revision_published once. */
  method HandlePublish(m: Manager, store: Store, sources: SourceStore, hooks: WebhookStore, fleet: string,
                       generatedAt: string, clock: nat -> int)
    returns (r: Result<Revision, PublishError>)
    requires LogOk(store.State())
    modifies store, hooks
    ensures LogOk(store.State())
    ensures r.Failure? ==> store.State() == old(store.State()) && hooks.State() == old(hooks.State())
    ensures fleet !in old(store.fleets) ==> r == Failure(StoreFailed(NotFound))
    ensures fleet in old(store.fleets) && r.Failure? ==>
      r.error.CompileFailed? &&
      exists hosts, certs :: old(sources.Lists(fleet, hosts, certs)) && CompilesTo(m.p, hosts, certs, Failure(r.error.compile))
    ensures r.Success? ==>
      && Published(store.State(), fleet) == Some(r.value)
      && r.value.number == PublishedNumber(old(store.State()), fleet) + 1 && Sealed(m, r.value)
      && (exists hosts, certs :: old(sources.Lists(fleet, hosts, certs)) && BuiltFrom(m, r.value, hosts, certs))
      && Fired(old(hooks.State()), hooks.State(), fleet, "revision_published",
               m.p.encode(Obj(map["event" := Str("revision_published"), "fleet_id" := Str(fleet),
                                  "revision_number" := Num(r.value.number as real), "etag" := Str(r.value.etag),
                                  "generated_at" := Str(generatedAt)])), clock)
  {
    hide CompilesTo, LogOk, Sealed, BuiltFrom, IsListing;
    var found := store.GetFleet(fleet);
    if found.Failure? {
      return Failure(StoreFailed(found.error));
    }
    r := PublishForFleet(m, store, sources, fleet);
    if r.Success? {
      PublishedHasFleet(store.State(), fleet);
      hooks.FireWebhooks(fleet, "revision_published", Payload(m.p, "revision_published", r.value, generatedAt), clock);
    }
  }

  /** handleRollback: likewise, with revision_rolled_back. */
  method HandleRollback(m: Manager, store: Store, hooks: WebhookStore, fleet: string, number: int,
                        generatedAt: string, clock: nat -> int)
    returns (r: Result<Revision, StoreError>)
    requires LogOk(store.State())
    modifies store, hooks
    ensures LogOk(store.State())
    ensures r.Failure? ==> store.State() == old(store.State()) && hooks.State() == old(hooks.State())
    ensures r.Failure? <==> !NumberTaken(old(store.State()), fleet, number)
    ensures r.Success? ==>
      && (exists id :: RolledBack(m, old(store.State()), store.State(), fleet, number, id, r.value))
      && Fired(old(hooks.State()), hooks.State(), fleet, "revision_rolled_back",
               m.p.encode(Obj(map["event" := Str("revision_rolled_back"), "fleet_id" := Str(fleet),
                                  "revision_number" := Num(r.value.number as real), "etag" := Str(r.value.etag),
                                  "generated_at" := Str(generatedAt)])), clock)
  {
    hide LogOk;
    r := Rollback(m, store, fleet, number);
    if r.Success? {
      hooks.FireWebhooks(fleet, "revision_rolled_back", Payload(m.p, "revision_rolled_back", r.value, generatedAt), clock);
    }
  }

  // ---------------------------------------------------------------- an agent's poll

  /** The status line of the answer to an agent's poll. */
  datatype ConfigReply = NoRevision | InternalError | NotModified304(computed: Response) | Ok200(body: Response, etagHeader: string)

  /** handleGetConfig for an agent that has been identified: 404 without a
      published revision, 304 when the request names the tag of what was
      computed, and otherwise what was computed. */
  method HandleGetConfig(m: Manager, store: Store, agent: string, fleet: string, labels: seq<string>, ifNoneMatch: string)
    returns (reply: ConfigReply)
    ensures reply.NoRevision? <==> Published(store.State(), fleet).None?
    ensures reply.InternalError? ==>
      var rev := Published(store.State(), fleet).value;
      rev.hosts != [] && exists e :: CompilesTo(m.p, AgentConfig.AgentHosts(rev.hosts, labels), rev.certs, Failure(e))
    ensures reply.NotModified304? ==>
      && Answers(m, agent, labels, Published(store.State(), fleet).value, reply.computed)
      && ifNoneMatch != "" && EtagMatches(ifNoneMatch, reply.computed.etag)
      && Reply(ifNoneMatch, reply.computed) == GotNotModified(reply.computed)
    ensures reply.Ok200? ==>
      && Answers(m, agent, labels, Published(store.State(), fleet).value, reply.body)
      && (ifNoneMatch == "" || !EtagMatches(ifNoneMatch, reply.body.etag)) && reply.etagHeader == reply.body.etag
      && Reply(ifNoneMatch, reply.body) == GotBody(reply.body, ProviderPlugin.EtagFor(reply.body, reply.etagHeader))
  {
    hide CompilesTo, Answers, EtagMatches;
    var rev := store.GetPublishedRevision(fleet);
    if rev.Failure? {
      return NoRevision;
    }
    var resp := BuildAgentConfigResponse(m, agent, labels, rev.value);
    if resp.Failure? {
      return InternalError;
    }
    if ifNoneMatch != "" {
      var same := MatchEtag(ifNoneMatch, resp.value.etag);
      if same {
        return NotModified304(resp.value);
      }
    }
    reply := Ok200(resp.value, resp.value.etag);
  }
}
