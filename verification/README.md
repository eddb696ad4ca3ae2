# ProxyDock: a verified model of the compiler, the pull protocol and the queues

ProxyDock keeps the desired state of a fleet of Traefik instances as a list of
proxy hosts. The manager validates and compiles that list into a Traefik dynamic
configuration, numbers and signs it as a revision, and answers every agent's poll
with the part of the published revision whose label selectors match the agent.
Agents keep the last good configuration and cache it across restarts. Webhooks and
certificates are handled by job queues that any number of workers share. This
project models that logic in Dafny and proves what it guarantees; `dafny verify
dfyconfig.toml` checks the whole of it.

## How the model is laid out

- **Text, Utf16, Json, Sorting, Lists, Wrappers**: strings as sequences of code
  points, JavaScript's string order, JSON values, an unstable sort, list filtering.
- **Labels**: the selector language.
- **Model, Middlewares, Validation, Compiler**: the source-to-target
  transformation, with its loops as methods proved against specification functions.
- **Acceptance, ValidationErrors**: what validation accepts and which errors it
  reports, said without the checks it runs.
- **Writers, References, Determinism, Documents, Routing, MiddlewareRouting**: what a
  compiled configuration means. `Routing` and `MiddlewareRouting` read the emitted document
  (rules, entry points, the TCP catch-all, service names, middleware chains) and
  compare that with what hosts declare.
- **AgentConfig, LabelFiltering, CertificateFiltering**: the recompile per agent.
- **RevisionStore, Publishing, Handlers, ProviderPlugin**: the store, the handlers and the
  agent plugin as classes and methods, each tied to a function of the old state.
- **Protocol, ProtocolInvariants, ProtocolResults, ProtocolProgress**: manager, publishers and agents
  together as a transition system with one atomic action per step; agents may crash
  between any two steps. Main results hold at every moment of every run.
- **WebhookQueue, WebhookRuns, AcmeQueue**: the two queues, first as store methods,
  then as runs with any number of workers.
- **AuditLog**: paging through a log that grows meanwhile.
- **DeepEqual, RevisionDiff**: the revision diff of the web page.

The two central results combine everything. `ProtocolResults.AgentsRouteWhatWasPublished`
says that whatever an agent has offered Traefik routes every request, and defines
every middleware, as the hosts of a published revision ask for, restricted to that
agent's labels. `ProtocolResults.NotModifiedIsSound` says that a 304 is only ever sent
to an agent whose last offered configuration is the one just computed, up to a
collision of the truncated hash on these two.

## Modelling choices

- Configurations are compared as JSON values. The encoder, the hash, the URL and
  host/port parsers and `fmt.Sprint` are fields of `Platform`, the signature scheme
  (Ed25519, section 5.1 of RFC 8032) is `Crypto`; nothing is assumed of them except
  where a lemma says so (`Sound` for signatures; an agreement of two hashes in their
  first 64 bits is an explicit alternative in `NotModifiedIsSound`, never assumed away).
- Entity tags are compared as the code does, after stripping a weak prefix
  (sections 8.8.3 and 13.1.2 of RFC 9110).
- A request is what arrives at an entry point: an HTTP request for a domain, a TCP
  connection with a server name or without one, or a UDP packet. Domains are compared
  without regard to case, as Traefik does, although the validator compares them as
  written. A TCP rule that names the server goes before the catch-all `HostSNI(*)`.
- `sort.Slice` is not stable, so `Compile` is a relation, `CompilesTo`, that allows
  any order of equal keys. Determinism is a theorem about it.
- A Go map may be iterated in any order: loops over maps pick keys arbitrarily.
- `toInt` is modelled for 64-bit integers. Counters and ids are unbounded.
- Compile and validation errors are datatypes that keep which check failed and for whom, not their text.
- `ProviderPlugin` speaks of the configuration last *offered*: `send` may drop a
  value on timeout while the tag still advances.
- Only the plugin's save step writes an agent's cache; an agent's static
  configuration and the manager's key stay fixed within a run.
- Queue times are whole seconds of one clock; computing a job's next run time and
  recording it are one step.
- The queue and log results are about the in-memory store, whose methods run under
  one mutex. On Postgres each method is one statement or transaction, so the same
  atomic steps apply, but `SKIP LOCKED` lets concurrent certificate claims overtake
  each other, and audit ids are not handed out in commit order.

## What the model shows about the code

Each of these is a lemma, most with the exact condition.

- Two host names can sanitize alike ("a.b" and "a-b"); the earlier one is then not
  routed at all. `RequestsReachTheirHost` says exactly who answers in every fleet.
- Two domains that differ in case only are both accepted, and both hosts then answer.
- A domain with surrounding space is accepted but not routed under the name that was
  checked; likewise the validator trims addresses that the emitter writes as they are.
- Middleware names of different hosts can collide although docs/compiler.md says the
  scheme avoids collisions. A definition survives exactly when the last host that
  writes its name writes the same one.
- Filtering by labels and compiling cannot always be exchanged: an agent that does not
  get the later of two hosts that sanitize alike is served the earlier one, which the
  fleet does not route. `FilteringCommutes` gives the exact condition for each section.
- A revision snapshot drops empty middleware configurations, so a `headers` or
  `compress` middleware configured as `{}` is published as `{}` but served to
  agents as null.
- A snapshot drops private keys (`json:"-"`), so an agent's certificate pool equals
  the published one only without keys; docs/labels.md says the keys are there.
- Storing a revision keeps the numbering exactly when its number is at most one past
  the published one, so a publisher in flight while its fleet is deleted and created
  again leaves a gap.
- A certificate job can succeed and then be marked failed, when the publication
  after it fails.
- The diff's comparison takes `[]` for `{}` and any array for the object with its
  index keys, and only these; and it does not look at the upstream list, the
  protocol, stickiness or the health check at all.

Other places where code and documentation differ (the model follows the code):
docs/compiler.md gives the tag 8 hex digits, the code writes 16; docs/provider.md
persists the cache before the state is updated, the code does it after; section
13.1.2 of RFC 9110 lets `*` match any tag, the code compares it literally;
docs/webhooks.md lists `acme_certificate_issued`, which nothing fires. For a negative
`before` parameter the in-memory audit log returns the newest page and the Postgres
one returns nothing.

## Model

| member | source | states |
|---|---|---|
| Labels.Parse | apps/api/internal/labels/labels.go:30-56 | splitting, trimming, duplicate and conflict rules of a selector, as a fold over its parts; errors name the offending part |
| Labels.ParsedExact | apps/api/internal/labels/labels.go:26-56 | a selector is accepted iff every comma-separated part is blank or reads key=value with a key, and no two parts give one key different values; it then requires exactly the pairs its parts say |
| Labels.ParseErrorExact | apps/api/internal/labels/labels.go:30-56 | the error blames the first part that cannot be used: no `=`, no key, or a value other than an earlier part gave; the parts before it alone are accepted |
| Labels.Matches | apps/api/internal/labels/labels.go:69-87 | an agent is selected when its labels, later ones winning, satisfy every requirement |
| Labels.SelectsExact | apps/api/internal/labels/labels.go:69-87 | an agent is selected iff the last of its labels on every required key gives the required value |
| Labels.String | apps/api/internal/labels/labels.go:91-105 | the canonical text is the sorted requirements, whatever the map order |
| Labels.ParseStringRoundTrip | apps/api/internal/labels/labels.go:26-105 | re-encoding a parsed selector and parsing it again gives it back, for any iteration order |
| Labels.StringDeterministic | apps/api/internal/labels/labels.go:91-105 | the canonical text does not depend on map iteration order |
| Labels.JoinIsConjunction | apps/api/internal/labels/labels.go:30-87 | joining two valid selectors with a comma is rejected iff no label set satisfies both, and otherwise selects exactly the agents both select |
| Middlewares.RenderPreservesBehaviour | apps/api/internal/compiler/compiler.go:412-537 | rendering succeeds iff the middleware is servable, and the rendered object, read back by its literal type key and fields with nothing extra, gives the behaviour that the operator's own configuration asks for |
| Middlewares.OptionsAreTheOperators | apps/api/internal/compiler/compiler.go:414-510 | the body of a headers, forwardAuth, rateLimit or compress definition is null iff the configuration is nil, and otherwise an object with exactly the operator's fields |
| Middlewares.RenderErrorExact | apps/api/internal/compiler/compiler.go:412-537 | a middleware is rejected with an error iff what the error says is wrong with its configuration |
| Middlewares.SnapshotRender | apps/api/internal/model/model.go:53-57 | storing and reading back a middleware never breaks rendering, and changes the result iff a verbatim type has an empty configuration |
| Middlewares.SameAskedSameRendered | apps/api/internal/compiler/compiler.go:412-537 | middlewares that ask for the same behaviour are rendered the same |
| Middlewares.RenderMiddleware | apps/api/internal/compiler/compiler.go:412-537 | reading list fields item by item gives the specified rendering or error, which RenderPreservesBehaviour and RenderErrorExact pin down |
| Json.ToStringSlice | apps/api/internal/compiler/compiler.go:849-866 | nothing unless the value is a list whose items are all strings, and then these strings in order |
| Middlewares.ValidateMiddlewares | apps/api/internal/compiler/compiler.go:552-576 | the two passes report the first unrenderable middleware, else the first chain to an unknown name, else nothing |
| Middlewares.ListFaultExact | apps/api/internal/compiler/compiler.go:552-576 | a list is accepted iff every entry is servable and every chain names entries of the list |
| Middlewares.ListFaultIsFirst | apps/api/internal/compiler/compiler.go:552-576 | a rejected list is blamed on its first middleware that does not render, else on the first chain, and its first entry, that names no middleware of the list |
| Middlewares.ApplyTemplate | apps/web/src/pages/ProxyHostForm.tsx:638 | appending an accepted template to an accepted list is accepted; a chain target is kept iff the template does not reuse its raw name |
| Writers.HostFaultExact | apps/api/internal/compiler/compiler.go:140-180 | the compiler's own check of one host's middlewares agrees with ValidateMiddlewares on every list |
| Validation.EffectiveUpstreamURLs | apps/api/internal/compiler/compiler.go:336-352 | the entries of the list that are not only space, each as often and in the order it stands there; without any, the single legacy address unless that is only space |
| Validation.UpstreamsExact | apps/api/internal/compiler/compiler.go:336-352 | that description determines the list |
| Validation.EmittedAddressWasChecked | apps/api/internal/compiler/compiler.go:290-297 | the emitted address is the validated one iff the upstream has no surrounding space |
| Validation.ValidateHTTP | apps/api/internal/compiler/compiler.go:629-667 | errors of one HTTP host in order, and the domain claim it leaves behind |
| Validation.ValidateTCP | apps/api/internal/compiler/compiler.go:669-693 | errors of one TCP host in order, and its SNI claim |
| Validation.ValidateUDP | apps/api/internal/compiler/compiler.go:695-724 | errors of one UDP host in order, and its entry point claims |
| Validation.ValidateHost | apps/api/internal/compiler/compiler.go:584-622 | the loop body: name checks, skipping disabled hosts, dispatch by protocol |
| Validation.Validate | apps/api/internal/compiler/compiler.go:581-627 | collects every error over all hosts, and none iff the fleet is publishable by the pairwise declaration |
| Validation.ValidateExact | apps/api/internal/compiler/compiler.go:581-724 | the accumulating maps accept exactly the fleets whose hosts are each well formed and pairwise coexist |
| Acceptance.AcceptedFleets | apps/api/internal/compiler/compiler.go:581-724 | no error is found iff every host is acceptable by its own fields (name, domain, upstreams, middleware types, entry points, protocol) and any two have different names and, when enabled and of one protocol, no domain or entry point in common |
| Acceptance.DomainExact | apps/api/internal/compiler/compiler.go:777-796 | a domain is accepted iff it is, space around it aside, labels of letters, digits and dashes joined by dots, at most 253 characters in all |
| Acceptance.AddressExact | apps/api/internal/compiler/compiler.go:730-758 | a TCP or UDP upstream is accepted iff, after an optional tcp or udp scheme, it has no other scheme, a host, and a port that writes a number from 1 to 65535 |
| ValidationErrors.ErrorsAreTheTrueOnes | apps/api/internal/compiler/compiler.go:581-724 | an error is reported iff it is true of some host compared with the hosts before it: whose name, domain or entry point was taken by whom, which upstream is bad before any clash of schemes, which middleware type is unknown |
| ValidationErrors.ErrorsAreInOrder | apps/api/internal/compiler/compiler.go:581-724 | a host's errors follow those of the hosts before it and stand in the order of the checks: name, protocol, domain or entry points, upstreams, middleware types or TLS, middlewares that are not supported |
| ValidationErrors.OwnersExact | apps/api/internal/compiler/compiler.go:629-724 | the accumulating maps hold each domain and entry point with the name of the first host that claimed it |
| Validation.SublistPublishable | apps/api/internal/api/agent_handlers.go:118-143 | leaving hosts out keeps a fleet publishable |
| Validation.PublishablePermute | apps/api/internal/compiler/compiler.go:581-627 | acceptance does not depend on the order of hosts |
| Validation.SnapshotPublishable | apps/api/internal/api/admin_handlers.go:408-424 | a revision's snapshot of a publishable fleet is publishable |
| Compiler.SanitizeName | apps/api/internal/compiler/compiler.go:798-812 | keeps ASCII letters, digits, dashes and underscores in place and turns every other character into one dash |
| Compiler.NamesAreMangled | apps/api/internal/compiler/compiler.go:140-182 | a host's name in the document is its sanitized name, and its i-th middleware's is that name, i and the sanitized raw name, joined by dashes |
| Compiler.RenderMiddlewares | apps/api/internal/compiler/compiler.go:140-156 | the first rendering error of a host, or the definitions under mangled names with the raw-name map in which later duplicates win |
| Compiler.ResolveRefs | apps/api/internal/compiler/compiler.go:158-180 | the first unknown chain target, or every target's mangled name in order |
| Compiler.ResolveChains | apps/api/internal/compiler/compiler.go:158-180 | rewrites each chain in place, or reports the first unknown target |
| Compiler.MwKeysDistinct | apps/api/internal/compiler/compiler.go:146 | within one host mangled names never collide, for any raw names and list length |
| Compiler.CompileHTTP | apps/api/internal/compiler/compiler.go:131-209 | the first host fault, or all routers, services and definitions in host order |
| Compiler.CompileL4 | apps/api/internal/compiler/compiler.go:221-285 | no section for no hosts, otherwise routers and services in host order |
| Compiler.Compile | apps/api/internal/compiler/compiler.go:58-103 | validation errors, or for some order left by the sorts the document and its tag; Documents, Routing and MiddlewareRouting say what the document holds, Model what the tag says |
| Model.TagSaysDigest | apps/api/internal/compiler/compiler.go:94-102 | the tag is a quoted text that writes, in 16 hexadecimal digits, the first 64 bits of the hash of the document's bytes |
| Model.TagsAgreeIff | apps/api/internal/compiler/compiler.go:94-102 | two documents have one tag iff these 64 bits agree |
| Documents.DocumentSections | apps/api/internal/compiler/compiler.go:58-92 | a document has an http section, with middlewares iff an enabled HTTP host has some, a tcp or udp section iff an enabled host has that protocol, a tls section iff there are certificates, and nothing else |
| Documents.PoolIsTheCertificates | apps/api/internal/compiler/compiler.go:316-333 | the pool lists every certificate once, by rising name, with its certificate text as certFile and its key text as keyFile |
| Documents.CompileErrorIsTrue | apps/api/internal/compiler/compiler.go:58-180 | a failed compile lists the validation errors, or names the first enabled HTTP host by name, its middleware and what is wrong with it, every earlier host being free of fault |
| Writers.WriteAllAt | apps/api/internal/compiler/compiler.go:182-206 | a router key is present iff a host sanitizes to it, and holds the last such host's entry |
| Writers.AllMwsAt | apps/api/internal/compiler/compiler.go:140-180 | a definition key is present iff a host writes it, and holds the last writer's resolved definition |
| References.CompiledReferencesClosed | apps/api/internal/compiler/compiler.go:131-285 | in every successful compile each router's service and middlewares and each chain entry exist in the output, with no hypothesis on names |
| Determinism.CompileDeterministic | apps/api/internal/compiler/compiler.go:58-103 | permuting hosts, and certificates with distinct names, gives the same error or the same configuration and tag, even when sanitized names collide |
| Routing.RequestsReachTheirHost | apps/api/internal/compiler/compiler.go:58-285 | for every request exactly the hosts that serve it answer: those that declare it and are not shadowed by a later-named host that sanitizes alike, or else the TCP catch-all; each leads to its own entry points, to the upstreams its fields ask for, to its middlewares, TLS block, sticky cookie and health check, and to no field besides; two answer only when their domains differ in case alone |
| Routing.CatchAllGetsTheRest | apps/api/internal/compiler/compiler.go:211-248 | a routed TCP host for `*` is the only one to answer a connection that no routed host names, with or without a server name |
| Routing.CheckedDomainIsRouted | apps/api/internal/compiler/compiler.go:777-796 | in any successful compile the router of a routed HTTP or TCP host answers for the domain that was checked iff its domain has no surrounding space |
| Routing.PaddedDomainIsLost | apps/api/internal/compiler/compiler.go:777-796 | a fleet of one host with the domain " x " is accepted and compiles, and nothing answers for "x" |
| Routing.PaddedUpstreamIsEmitted | apps/api/internal/compiler/compiler.go:290-297 | a fleet with the upstream " tcp://u:1" is accepted because "u:1" is a good address, and its document sends connections to the text as written |
| Routing.CompileSucceeds | apps/api/internal/compiler/compiler.go:58-103 | a publishable fleet whose enabled HTTP hosts have admissible middlewares always compiles |
| Routing.SanitizedNamesCollide | apps/api/internal/compiler/compiler.go:798-812 | a fleet of hosts "a-b" and "a.b" compiles, and nothing answers a request that the first one declares |
| Routing.CaseTwinsBothAnswer | apps/api/internal/compiler/compiler.go:633-641 | a fleet of two hosts whose domains differ in case only compiles, and both answer |
| MiddlewareRouting.DefinitionsSurvive | apps/api/internal/compiler/compiler.go:131-180 | the definition under a middleware's mangled name is its own iff the last-named enabled HTTP host that writes the name writes the same definition |
| MiddlewareRouting.MiddlewaresMeanWhatWasAsked | apps/api/internal/compiler/compiler.go:131-209 | a middleware means what its host asked, through chains to any depth and cycles included, whenever the definitions it leads to survive, and only then if its chains survive |
| MiddlewareRouting.NamesMeanTheirLastWriters | apps/api/internal/compiler/compiler.go:131-209 | with no hypothesis, every mangled name means in the document what its last writer asks for, through chains to any depth |
| MiddlewareRouting.UntouchedIsInPlace | apps/api/internal/compiler/compiler.go:146 | a host that shares no mangled name with a later-named one keeps every definition |
| MiddlewareRouting.SharedKeysNeedPrefixes | apps/api/internal/compiler/compiler.go:146 | two hosts can share a mangled name only if their sanitized names are equal or one with a dash starts the other |
| MiddlewareRouting.MangledNamesCollide | apps/api/internal/compiler/compiler.go:146 | such a fleet compiles with distinct sanitized names, and the earlier host's middleware does not mean what was asked |
| AgentConfig.FilterForAgent | apps/api/internal/api/agent_handlers.go:118-135 | the snapshot's hosts in order, with exactly those kept whose selector asks for the labels |
| AgentConfig.SelectedExact | apps/api/internal/api/agent_handlers.go:118-135 | an agent gets a host iff the host's selector can be read and the last word of the labels on every key it names is the value it gives |
| AgentConfig.EveryAgentIsServable | apps/api/internal/api/agent_handlers.go:118-143 | once a fleet compiled, recompiling its snapshot for any label set succeeds, whatever order the sorts leave |
| LabelFiltering.FilteringCommutes | apps/api/internal/api/agent_handlers.go:118-145 | with no hypothesis on names the agent's sections have exactly the names of the hosts that reach it; routers are the published ones restricted to them iff no shadowed host is revived, services and definitions iff the last host of each name emits the same for the agent and for the fleet |
| LabelFiltering.CleanFilteringCommutes | apps/api/internal/api/agent_handlers.go:118-145 | without colliding names routers and services are always the restricted ones, definitions iff no reached host has an empty verbatim configuration |
| LabelFiltering.FilteringRevives | apps/api/internal/api/agent_handlers.go:118-145 | a fleet that compiles and does not answer a request, while the document of an agent that gets fewer hosts does; its routers are not the published ones restricted |
| CertificateFiltering.AgentKeepsCertificates | apps/api/internal/model/model.go:116-130 | the agent's certificate pool is the published one iff no certificate has a private key |
| RevisionStore.Store.CreateFleet | apps/api/internal/store/memory/memory.go:296-307 | a new fleet has no published revision; an existing one conflicts and nothing changes |
| RevisionStore.Store.CreateRevision | apps/api/internal/store/memory/memory.go:892-921 | unknown fleet, conflict on a taken number, or stored under a fresh id and made current, with the whole new state |
| RevisionStore.Store.NextRevisionNumber | apps/api/internal/store/memory/memory.go:984-997 | one more than the highest number of the fleet |
| RevisionStore.Store.GetPublishedRevision | apps/api/internal/store/memory/memory.go:951-966 | the revision the fleet points to, or not found |
| RevisionStore.Store.GetRevision | apps/api/internal/store/memory/memory.go:923-932 | some revision of that fleet and number, or not found iff there is none |
| RevisionStore.NextNumber | apps/api/internal/store/memory/memory.go:984-997 | in a well-formed log the next number is one past the published one |
| RevisionStore.StoringKeepsLog | apps/api/internal/store/memory/memory.go:892-921 | a number up to the published one conflicts and changes nothing, the next one is stored and published, and the log stays gapless |
| RevisionStore.StoringIsSafeIff | apps/api/internal/store/memory/memory.go:892-921 | storing keeps the log well formed iff the number is at most one past the published one |
| RevisionStore.RecreatedFleetHasGap | apps/api/internal/store/memory/memory.go:330-353 | for any well-formed store, a publisher that took its number before its fleet was deleted and recreated succeeds, and keeps the numbering iff the fleet had no revision |
| Publishing.Publish | apps/api/internal/api/admin_handlers.go:402-434 | the sequence shared by the handler and the renewal: alone against the store it fails only by the compile or an unknown fleet and then changes nothing; otherwise the next number is published, sealed and built from the given sources, and old revisions stay |
| Model.SnapshotIsFaithful | apps/api/internal/model/model.go:53-130 | a snapshot keeps every host, middleware and certificate in order with all fields, except empty middleware configurations and private keys |
| Publishing.Rollback | apps/api/internal/api/admin_handlers.go:481-508 | republishes an old configuration under the next number, signed again, or changes nothing iff it does not exist |
| Handlers.ListRows | apps/api/internal/store/memory/memory.go:585-596 | a fleet's rows, each once, in order of name |
| Handlers.PublishForFleet | apps/api/cmd/manager-api/acme_renew.go:94-130 | publishes what the store lists for the fleet; alone it fails only by the compile or an unknown fleet, and then changes nothing |
| Handlers.HandlePublish | apps/api/internal/api/admin_handlers.go:379-441 | an unknown fleet is reported before anything is listed or compiled, failures leave log and queue alone, success publishes what the store lists and fires revision_published once |
| Handlers.HandleRollback | apps/api/internal/api/admin_handlers.go:481-515 | fails iff the revision does not exist and then changes nothing; otherwise rolls back and fires revision_rolled_back once |
| Publishing.BuildAgentConfigResponse | apps/api/internal/api/agent_handlers.go:95-156 | the answer is the revision's own configuration without a snapshot, else the recompile for the labels, re-signed; it fails only if that recompile fails |
| Publishing.AnswerIsSealed | apps/api/internal/api/agent_handlers.go:95-156 | every answer carries the revision's fleet and number, the agent's id, a tag that writes the hash of its own configuration, and with a signing key the manager's ed25519 signature over it |
| Publishing.EveryAgentIsAnswered | apps/api/internal/api/agent_handlers.go:95-156 | a revision built by a publish can be answered for every agent and label set |
| Publishing.MatchEtag | apps/api/internal/api/api.go:340-349 | true iff some comma-separated member of the header, without space around it, is the tag or W/ and the tag |
| Handlers.HandleGetConfig | apps/api/internal/api/agent_handlers.go:46-84 | 404 iff the fleet has no published revision, 304 iff the request names the tag of the answer that was computed, else that answer with its tag; the same reply as in the protocol's step |
| Publishing.EtagMatchesIsEquality | apps/api/internal/api/api.go:340-349 | between two tags the compiler makes, matching is equality |
| ProviderPlugin.Provider.Start | providers/traefik-fleet/fleet.go:103-121 | a cached configuration for this agent and fleet that is not empty is offered and noted; any other, or none, changes nothing |
| ProviderPlugin.Provider.Send | providers/traefik-fleet/fleet.go:186-193 | only the configuration on offer changes |
| ProviderPlugin.Provider.Poll | providers/traefik-fleet/fleet.go:141-180 | errors and 304, and bodies for another agent or fleet, with an empty configuration, or, when a key is set, with another algorithm, no signature or one that does not verify, change nothing; any other body is offered, noted with its revision and tag and, if the file can be written, cached; the reported revision is the one noted |
| ProtocolInvariants.StepKeepsInv | providers/traefik-fleet/fleet.go:103-180 | every step of operators, publishers and agents keeps log, publisher, cache, tag and provenance invariants |
| ProtocolInvariants.RunKeepsInv | providers/traefik-fleet/fleet.go:103-180 | they hold at every moment of every run |
| ProtocolResults.OfferedConfigIsGenuine | providers/traefik-fleet/client.go:61-84 | whatever an agent offered, also from its cache after a restart, was built for it from a revision published at that moment, is not empty or meant for another agent or fleet, and has a signature that verifies under the agent's configured key, if there is one |
| ProtocolResults.UninterruptedBootIsBoot | providers/traefik-fleet/fleet.go:106-121 | the plugin's start is the protocol's small steps run without interruption |
| ProtocolResults.UninterruptedPollIsPoll | providers/traefik-fleet/fleet.go:141-180 | the plugin's poll is the protocol's small steps run without interruption |
| ProtocolResults.NotModifiedIsSound | apps/api/internal/api/agent_handlers.go:75-81 | at a 304 the configuration last offered is the one just computed, unless the first 64 bits of the hashes of exactly these two agree |
| ProtocolResults.TagNamesLastOffer | providers/traefik-fleet/fleet.go:106-180 | between polls a non-empty tag names the configuration last offered, across restarts |
| ProtocolResults.AppliedRevisionIsMonotone | providers/traefik-fleet/fleet.go:168-172 | the noted revision never exceeds the published number and never decreases while the process lives; after a crash only the cache file is left |
| ProtocolResults.LogIsGapless | apps/api/internal/store/memory/memory.go:892-921 | under any interleaving of publishers and rollbacks the numbers of a fleet's revisions are exactly 1 to that of its published one, each used once |
| ProtocolResults.RevisionsAreImmutable | apps/api/internal/store/memory/memory.go:892-921 | a stored revision never changes or disappears, and published numbers only grow |
| ProtocolResults.StaleNumbersOnlyConflict | apps/api/internal/api/admin_handlers.go:408-434 | a publisher about to store succeeds with the next number or conflicts without effect, however old its number |
| ProtocolResults.StoredRevisionsAreCoherent | apps/api/cmd/manager-api/acme_renew.go:94-130 | every stored revision is sealed, verifies under the public key when signed, and was compiled from sources its fleet really had |
| ProtocolResults.NoRevisionFailsAnAgent | apps/api/internal/api/agent_handlers.go:118-143 | no stored revision can fail any agent, whatever its labels |
| ProtocolResults.HonestAnswersVerify | providers/traefik-fleet/verify.go:18-43 | an agent with the manager's public key verifies every answer the manager makes for it |
| ProtocolResults.HonestAnswersAreAccepted | providers/traefik-fleet/client.go:61-84 | at every moment of every run an answer from any stored revision passes the structural and the signature check of an agent configured for that fleet, also when no host reaches the agent |
| ProtocolResults.AgentsRouteWhatWasPublished | apps/api/internal/api/agent_handlers.go:95-156 | end to end: an offered configuration routes every request, and defines every middleware, as a published revision's hosts, restricted to the agent's labels, ask for |
| ProtocolProgress.AnswersAreFresh | apps/api/internal/api/agent_handlers.go:46-81 | whatever a poll brings, a body or a 304, was built from a revision published after the poll began, so its number is at least the one published then |
| ProtocolProgress.PollsConverge | providers/traefik-fleet/fleet.go:141-180 | after a poll during which nothing is published or edited, the configuration on offer is an answer from the current revision for the current labels, unless 64 bits of two hashes agree, whatever was offered or cached before |
| ProtocolProgress.PollsCanGoOn | providers/traefik-fleet/fleet.go:141-180 | at every moment of every run a configured agent can take another step of its poll without failing it, as long as its fleet has a published revision |
| WebhookQueue.Backoff | apps/api/cmd/manager-api/webhook_worker.go:94-97 | the multiplying loop gives five to the number of attempts |
| WebhookQueue.SettledExactly | apps/api/cmd/manager-api/webhook_worker.go:51-107 | a delivery is recorded as succeeded iff its answer's code is from 200 to 299, as failed iff no request could be built or this was the fifth attempt, and else waits 5, 25, 125 or 625 seconds; the error text, finish time and attempt count, and nothing else, change |
| WebhookQueue.SettlingUsesAnAttempt | apps/api/cmd/manager-api/webhook_worker.go:51-107 | recording any outcome strictly lowers the attempts left over all jobs |
| WebhookQueue.WebhookStore.ListEnabled | apps/api/internal/store/memory/memory.go:773-789 | exactly the enabled hooks of the fleet that subscribe to the event, each once |
| WebhookQueue.WebhookStore.FireWebhooks | apps/api/internal/api/admin_handlers.go:447-475 | enqueues one job after another for a listing of the subscribers, and nothing else |
| WebhookQueue.EventsFireOnce | apps/api/internal/api/admin_handlers.go:447-475 | an event leaves existing jobs alone and makes exactly one new pending job, due at once, for each enabled hook of the fleet that subscribes to it, none for others |
| WebhookQueue.WebhookStore.Enqueue | apps/api/internal/store/memory/memory.go:828-841 | a fresh pending job that is due at once |
| WebhookQueue.WebhookStore.ClaimNext | apps/api/internal/store/memory/memory.go:843-869 | some due job becomes running and is returned with its hook; not found iff none was due, or when the hook is gone and the job stays running |
| WebhookQueue.WebhookStore.Finish | apps/api/internal/store/memory/memory.go:871-888 | the job's new state, with a finish time for final states; unknown ids change nothing |
| WebhookQueue.WebhookStore.Deliver | apps/api/cmd/manager-api/webhook_worker.go:51-107 | success, final failure or a retry scheduled with backoff, by outcome and attempt count |
| WebhookQueue.WebhookStore.Drain | apps/api/cmd/manager-api/webhook_worker.go:32-42 | the inner drain loop ends, delivers at most the attempts that were left, and stops only when no job is due or at a job whose hook is gone |
| WebhookRuns.StepKeepsInv | apps/api/cmd/manager-api/webhook_worker.go:28-107 | every step of every worker, with crashes and deleted hooks, keeps ownership and delivery-log invariants |
| WebhookRuns.RunningJobHasOneOwner | apps/api/internal/store/memory/memory.go:843-869 | a running job has at most one owner, and one unless its worker crashed or its hook was gone at the claim |
| WebhookRuns.JobsEndAsAnswered | apps/api/cmd/manager-api/webhook_worker.go:51-107 | at every moment of every run a job is succeeded iff its last request was answered with a code from 200 to 299, and failed iff some request could not be built or its fifth request met something else |
| WebhookRuns.DeliveriesAreBoundedAndSpaced | apps/api/cmd/manager-api/webhook_worker.go:51-101 | at most 5 requests per job, each retry at least 5, 25, 125 and 625 seconds after the failure before it was recorded, at most 780 seconds scheduled in all |
| WebhookRuns.TerminalIsFinal | apps/api/internal/store/memory/memory.go:843-888 | a job that succeeded or failed is never claimed, sent or changed again |
| WebhookRuns.RetriesTerminate | apps/api/cmd/manager-api/webhook_worker.go:28-107 | with nothing enqueued, settled deliveries are at most the attempts that remained, for any number of workers |
| WebhookRuns.EveryJobEnds | apps/api/cmd/manager-api/webhook_worker.go:28-107 | with nothing enqueued all claims, requests and settlements together are bounded, at most fifteen per job, and some such step is possible, at once or later, iff a job that was not lost has not ended |
| WebhookRuns.NothingLeftMeansAllOver | apps/api/cmd/manager-api/webhook_worker.go:28-49 | with no job pending or held, every job that was not lost has succeeded or failed |
| WebhookRuns.PendingCanBeClaimed | apps/api/internal/store/memory/memory.go:843-869 | a pending job can be claimed by any free worker as soon as its time has come |
| AcmeQueue.SortedIds | apps/api/internal/store/memory/memory.go:182-186 | the keys of the job map in strictly increasing order |
| AcmeQueue.AcmeStore.CreateJob | apps/api/internal/store/memory/memory.go:134-150 | a fresh pending job, or not found for an unknown fleet |
| AcmeQueue.AcmeStore.ClaimNext | apps/api/internal/store/memory/memory.go:178-198 | the pending job with the smallest id becomes running; not found iff none is pending |
| AcmeQueue.AcmeStore.MarkSucceeded | apps/api/internal/store/memory/memory.go:200-214 | succeeded with its certificate and no error, from any state |
| AcmeQueue.AcmeStore.MarkFailed | apps/api/internal/store/memory/memory.go:216-229 | failed with its error, keeping any certificate |
| AcmeQueue.AcmeStore.RunJob | apps/api/cmd/manager-api/acme_worker.go:58-160 | failed with the error and no new certificate, succeeded with the certificate, or failed with both when publishing fails; no other job changes |
| AcmeQueue.RunKeepsInv | apps/api/cmd/manager-api/acme_worker.go:32-100 | queue order and ownership hold at every moment of every run |
| AcmeQueue.ClaimsAreFirstInFirstOut | apps/api/internal/store/memory/memory.go:178-198 | the n-th claim takes the n-th job created, so ids strictly increase, no job is claimed twice, and a job is pending iff not yet claimed |
| AcmeQueue.RunningJobHasOneWorker | apps/api/cmd/manager-api/acme_worker.go:32-100 | a running job has exactly one worker unless its worker gave up |
| AcmeQueue.JobsOnlyMoveForward | apps/api/internal/store/memory/memory.go:134-229 | a job keeps its request and only moves from pending to running to succeeded or failed; failure is final, success may still fail and keeps its certificate |
| AcmeQueue.CertificateMeansItSucceeded | apps/api/cmd/manager-api/acme_worker.go:102-160 | a job carries a certificate iff it had succeeded at some moment of the run |
| AuditLog.AuditStore.Append | apps/api/internal/store/memory/memory.go:89-99 | the entry is appended under the next id and ids stay increasing |
| AuditLog.AuditStore.List | apps/api/internal/store/memory/memory.go:101-130 | the first entries, up to the effective limit, of all matching entries newest first |
| AuditLog.NewestIsExact | apps/api/internal/store/memory/memory.go:101-130 | that list has exactly the matching entries, each once, by falling id |
| AuditLog.PagingReadsEverythingOnce | apps/api/internal/store/store.go:137-149 | following BeforeID until a short page ends and returns every matching entry present at the start exactly once, newest first, whatever is appended meanwhile |
| Utf16.SortKeyOrder | apps/web/src/components/diff.ts:55 | the names are sorted by UTF-16 code unit |
| DeepEqual.Equal | apps/web/src/components/diff.ts:124-146 | decides equality of meanings, an array meaning the object with its index keys |
| DeepEqual.SameArrays | apps/web/src/components/diff.ts:126-132 | two arrays are the same iff they have the same length and the same items |
| DeepEqual.ArraysAreTheirIndexObjects | apps/web/src/components/diff.ts:133-144 | every array is confused with the object that has its index keys |
| DeepEqual.PlainValuesAreCompared | apps/web/src/components/diff.ts:124-146 | values without such objects are the same iff they are equal |
| RevisionDiff.DiffFields | apps/web/src/components/diff.ts:115-123 | one change per listed field that differs, in the listed order |
| RevisionDiff.DiffProxyHosts | apps/web/src/components/diff.ts:45-73 | one entry per name on either side, in JavaScript's string order, with its status and changes |
| RevisionDiff.EntryIsExact | apps/web/src/components/diff.ts:35-73 | each name has one entry: removed or added with the one host, or both hosts with the changes among the seven listed fields in their order and both sides of each, unchanged iff none of them differs |
| RevisionDiff.ByNameKeepsLast | apps/web/src/components/diff.ts:49-52 | of hosts with one name the last counts |
| RevisionDiff.DiffSummary | apps/web/src/components/diff.ts:163-176 | the number of entries with each status |
| RevisionDiff.ReplayGivesAfter | apps/web/src/components/diff.ts:45-73 | replaying a diff on the old hosts gives the new names and the same in every listed field |
| RevisionDiff.DiffIsComplete | apps/web/src/components/diff.ts:45-73 | the same on lists, for new lists without repeated names |
| RevisionDiff.SwapIsSymmetric | apps/web/src/components/diff.ts:45-73 | swapping the revisions swaps added with removed and both sides of every change |
| RevisionDiff.CountsAddUp | apps/web/src/components/diff.ts:163-176 | the four counts are the sizes of the four groups of names and sum to all names |
| RevisionDiff.UnlistedFieldsAreNotCompared | apps/web/src/components/diff.ts:35-43 | changing any field outside the list shows as unchanged |

## Left out

- HTTP routing, request decoding, logging, metrics, tracing and the React pages: plumbing without invariants.
- Bytes: JSON layout, SHA-256, AES-GCM, Ed25519, X.509 and base64 are abstract functions.
- Admin and agent tokens and the encryption envelope: short round trips over library calls.
- Certificate issuance, DNS providers and Docker discovery: clients of remote services; issuing is a step that succeeds or fails.
- Renewal timing, demo seeding, migrations, the unused SetPublishedRevision and plain CRUD: only easy members.
- Postgres queries: its methods are the same atomic steps, apart from the two differences named above.
- Rendering of errors and of diff values as text; timestamps, notes, actors' request paths and other fields that are only stored and returned.
- Deleting a fleet inside a protocol run: it breaks the numbering, as RecreatedFleetHasGap shows.
- Certificates with equal names: the sort may leave them in any order, so the emitted pool is then not determined.
- diffCertificates: the same loop with three plain string comparisons.
- Liveness of lost jobs: a job whose worker crashed, or whose hook was gone when it was claimed, stays running; safety results cover it.
- Locking between the values read and written by one plugin process: polls of one process do not overlap, and each critical section is a step.
- WebhookQueue.WebhookStore.Drain: one worker without interruption; interleaved workers are covered by WebhookRuns.RetriesTerminate.
- MiddlewareRouting.SharedKeysNeedPrefixes: one direction; a prefix makes a collision possible but not certain.
- WebhookRuns.EveryJobEnds: bounds the workers' steps and shows that one is always possible; that workers go on taking steps is not modelled.
- MiddlewareRouting.MiddlewaresMeanWhatWasAsked: for a chain that is itself overwritten only one direction, since another chain may mean the same; NamesMeanTheirLastWriters is exact there too.
- Routing.RequestsReachTheirHost: TLS handshakes, which connections a router without TLS gets to see, and the precedence between HTTP, TCP and UDP routers on one entry point are not modelled.
- ProviderPlugin.Provider.Send: whether Traefik's channel took the value or the send timed out; the configuration on offer is the one last sent.
- Handlers.HandleGetConfig: the agent is identified and its labels are loaded by the caller; store failures other than not found do not occur.
- ValidationErrors.ErrorsAreTheTrueOnes: which errors are reported, not how often equal ones repeat; Validation.Validate computes that.
- Publishing.Publish: hosts and certificates are parameters and nobody interferes; Handlers.PublishForFleet lists them from the store, and Protocol interleaves the listing with everything else.
- AcmeQueue.AcmeStore.RunJob: issuing the certificate, saving it and publishing are folded into one outcome; publishing itself is Publishing.Publish.
