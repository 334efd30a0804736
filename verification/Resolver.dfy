/** Resolving an agent: a chain of checks over the stores, and one audit event either way. */
module Resolver {
  import opened Prelude
  import opened Text
  import opened Clock
  import opened Json
  import opened CanonicalJson
  import opened AgentAddr
  import opened AgentFacts
  import opened Audit
  import opened HashChain
  import opened World
  import AuditStore
  import Facts
  import Index
  import Revocation
  import Trust

  const TRUST_UNVERIFIED := "unverified-v0"
  const TRUST_VERIFIED := "verified-v0"
  const CREDENTIAL_STATUS_NOT_IMPLEMENTED := "not-implemented-v0"

  /** The longest `time.Duration`; `Sub` saturates at it. */
  const MAX_DURATION := 0x7FFF_FFFF_FFFF_FFFF

  datatype Request = Request(agentId: string, requiredCapability: string)

  datatype ProofBundle = ProofBundle(
    signatureVerified: bool, pointerHashVerified: bool, schemaVerified: bool, credentialSetVerified: bool,
    credentialStatus: string, capabilityVerified: bool)

  datatype Cache = Cache(ttlSeconds: int, expiresAt: Instant, sourceSequence: uint32)

  datatype Response = Response(agentId: string, endpoint: Endpoint, trustDecision: string, proof: ProofBundle,
        cache: Cache)

  datatype ResolveError =
    | InvalidAgentId(id: IdError)
    | RecordNotFound | IndexFailed(index: Index.IndexError)
    | BadSignature(record: RecordError) | IdHashMismatch | Expired
    | PointerNotFound | PointerFailed(store: Facts.StoreError) | PointerHashMismatch
    | FactsNotFound | FactsFailed(store: Facts.StoreError)
    | FactsUndecodable | FactsInvalid(facts: FactsError) | CredentialSetMismatch
    | TrustNotConfigured | TrustDenied(trust: Trust.TrustError)
    | NoEndpoint
    | AuditFailed(audit: AuditError)

  // ----- freshness and endpoints -----

  function RecordTime(createdAt: Instant, updatedAt: Instant): Instant {
    if updatedAt == ZERO_TIME then createdAt else updatedAt
  }

  function ExpiresAt(createdAt: Instant, updatedAt: Instant, ttlSeconds: uint16): Instant {
    RecordTime(createdAt, updatedAt) + ttlSeconds as int * NANOS_PER_SECOND
  }

  /** `l1Freshness`: the whole seconds a record has left, if it has any. */
  function Freshness(createdAt: Instant, updatedAt: Instant, ttlSeconds: uint16, now: Instant): Option<int> {
    if RecordTime(createdAt, updatedAt) == ZERO_TIME then None
    else
      var expiresAt := ExpiresAt(createdAt, updatedAt, ttlSeconds);
      if expiresAt <= now then None
      else
        var left := if expiresAt - now > MAX_DURATION then MAX_DURATION else expiresAt - now;
        var remaining := left / NANOS_PER_SECOND;
        if remaining <= 0 then None else Some(remaining)
  }

  function FirstOfKind(endpoints: seq<Endpoint>, kind: string): (r: Option<nat>)
    ensures r.None? ==> forall i :: 0 <= i < |endpoints| ==> endpoints[i].kind != kind
    ensures r.Some? ==> r.value < |endpoints| && endpoints[r.value].kind == kind
                        && forall i :: 0 <= i < r.value ==> endpoints[i].kind != kind
  {
    if endpoints == [] then None
    else if endpoints[0].kind == kind then Some(0)
    else match FirstOfKind(endpoints[1..], kind) case None => None case Some(i) => Some(i + 1)
  }

  /** `selectEndpoint`: the kinds in turn, and within a kind the list in order. */
  function SelectEndpoint(endpoints: seq<Endpoint>): Option<Endpoint> {
    match FirstOfKind(endpoints, ENDPOINT_ADAPTIVE)
    case Some(i) => Some(endpoints[i])
    case None => match FirstOfKind(endpoints, ENDPOINT_ROTATING)
      case Some(i) => Some(endpoints[i])
      case None => match FirstOfKind(endpoints, ENDPOINT_STATIC)
        case Some(i) => Some(endpoints[i])
        case None => None
  }

  function Rank(kind: string): nat {
    if kind == ENDPOINT_ADAPTIVE then 0 else if kind == ENDPOINT_ROTATING then 1 else if kind == ENDPOINT_STATIC then 2
        else 3
  }

  /** `i` is the earliest of the endpoints of the best kind there is. */
  ghost predicate IsPreferred(endpoints: seq<Endpoint>, i: nat) {
    && i < |endpoints| && Rank(endpoints[i].kind) < 3
    && forall j :: 0 <= j < |endpoints| ==>
         Rank(endpoints[i].kind) <= Rank(endpoints[j].kind)
         && (j < i ==> Rank(endpoints[i].kind) < Rank(endpoints[j].kind))
  }

  lemma SelectIsPreferred(endpoints: seq<Endpoint>, e: Endpoint)
    ensures SelectEndpoint(endpoints) == Some(e) <==> exists i: nat :: IsPreferred(endpoints, i) && endpoints[i] == e
    ensures SelectEndpoint(endpoints) == None <==>
              forall i :: 0 <= i < |endpoints| ==> !SupportedEndpointType(endpoints[i].kind)
  {
    var kinds := (FirstOfKind(endpoints, ENDPOINT_ADAPTIVE), FirstOfKind(endpoints, ENDPOINT_ROTATING),
          FirstOfKind(endpoints, ENDPOINT_STATIC));
    if SelectEndpoint(endpoints).Some? {
      var i := if kinds.0.Some? then kinds.0.value else if kinds.1.Some? then kinds.1.value else kinds.2.value;
      assert IsPreferred(endpoints, i) && SelectEndpoint(endpoints) == Some(endpoints[i]);
      forall j: nat | IsPreferred(endpoints, j) ensures i == j {}
    }
  }

  // ----- the pipeline -----

  /** Which of the reads can be made at all. */
  datatype Reads = Reads(index: bool, pointers: bool, facts: bool)

  const ALL_UP := Reads(true, true, true)

  /** The checks on what the facts say, from validation on. */
  function JudgeFacts(env: Env, revocations: Revocation.Records, req: Request, id: string, sequence: uint32,
        freshness: int,
                      committed: Hash128, facts: AgentFacts, now: Instant): Result<Response, ResolveError>
  {
    match Validate(env.httpsUrl, facts, id, req.requiredCapability, now)
    case Some(e) => Err(FactsInvalid(e))
    case None => Conclude(req, id, sequence, freshness, facts.endpoints, now,
                          CredentialSetHash(env.sha, facts.credentials) == committed,
                          Trusts(env, revocations, req, id, facts, now))
  }

  function Conclude(req: Request, id: string, sequence: uint32, freshness: int, endpoints: seq<Endpoint>, now: Instant,
                    bound: bool, refused: Option<ResolveError>): Result<Response, ResolveError>
  {
    if !bound then Err(CredentialSetMismatch)
    else if refused.Some? then Err(refused.value)
    else match SelectEndpoint(endpoints)
      case None => Err(NoEndpoint)
      case Some(endpoint) => Ok(Answer(req, id, sequence, freshness, endpoint, now))
  }

  function Trusts(env: Env, revocations: Revocation.Records, req: Request, id: string, facts: AgentFacts,
        now: Instant): Option<ResolveError> {
    if req.requiredCapability == "" then None
    else if env.trust == None then Some(TrustNotConfigured)
    else match Trust.Decide(env.trust.value, revocations, facts.credentials, id, req.requiredCapability, now)
      case Some(e) => Some(TrustDenied(e))
      case None => None
  }

  function Min(a: int, b: int): int { if a <= b then a else b }

  function Answer(req: Request, id: string, sequence: uint32, freshness: int, endpoint: Endpoint,
        now: Instant): Response {
    var verified := req.requiredCapability != "";
    var ttl := Min(freshness, endpoint.ttlSeconds as int);
    Response(id, endpoint, if verified then TRUST_VERIFIED else TRUST_UNVERIFIED,
             ProofBundle(true, true, true, true, CREDENTIAL_STATUS_NOT_IMPLEMENTED, verified),
             Cache(ttl, now + ttl * NANOS_PER_SECOND, sequence))
  }

  /** From the record's pointer to its facts. */
  function LoadFacts(env: Env, s: Stores, up: Reads, payload: Payload): Result<AgentFacts, ResolveError> {
    match if up.pointers then Facts.PointerGet(s.pointers, payload.factsPtrHash128) else Err(Facts.Unavailable)
    case Err(e) => Err(if e == Facts.FactsNotFound then PointerNotFound else PointerFailed(e))
    case Ok(pointer) =>
      if Facts.PointerHash(env.sha, pointer) != payload.factsPtrHash128 then Err(PointerHashMismatch)
      else match if up.facts then Facts.FileGet(s.files, pointer) else Err(Facts.Unavailable)
        case Err(e) => Err(if e == Facts.FactsNotFound then FactsNotFound else FactsFailed(e))
        case Ok(bytes) => match env.parse(bytes)
          case None => Err(FactsUndecodable)
          case Some(facts) => Ok(facts)
  }

  /** The checks on the record itself. */
  function LoadRecord(env: Env, s: Stores, up: Reads, hash: Hash128): Result<Index.IndexedRecord, ResolveError> {
    match if up.index then Index.GetFrom(s.index, hash) else Err(Index.IndexUnavailable)
    case Err(e) => Err(if e == Index.RecordNotFound then RecordNotFound else IndexFailed(e))
    case Ok(found) => match Verify(env.scheme, found.record, env.publicKey)
      case Some(e) => Err(BadSignature(e))
      case None => if found.record.Payload().agentIdHash != hash then Err(IdHashMismatch) else Ok(found)
  }

  function ResolveHash(env: Env, s: Stores, up: Reads, req: Request, id: string, hash: Hash128,
        now: Instant): Result<Response, ResolveError> {
    match LoadRecord(env, s, up, hash)
    case Err(e) => Err(e)
    case Ok(found) =>
      var payload := found.record.Payload();
      match Freshness(found.createdAt, found.updatedAt, payload.ttlSeconds, now)
      case None => Err(Expired)
      case Some(freshness) => match LoadFacts(env, s, up, payload)
        case Err(e) => Err(e)
        case Ok(facts) => JudgeFacts(env, s.revocations, req, id, payload.sequence, freshness,
              payload.credentialSet128, facts, now)
  }

  /** What `Resolve` finds, before it is written to the audit log. */
  function Outcome(env: Env, s: Stores, up: Reads, req: Request, now: Instant): Result<Response, ResolveError> {
    match NormalizeAgentID(req.agentId)
    case Err(e) => Err(InvalidAgentId(e))
    case Ok(id) => match AgentIDHash(env.sha, id)
      case Err(e) => Err(InvalidAgentId(e))
      case Ok(hash) => ResolveHash(env, s, up, req, id, hash, now)
  }

  // ----- the audit event -----

  function RequestDocument(req: Request): Json {
    Obj([Member("agentId", Str(req.agentId)), Member("requiredCapability", Str(req.requiredCapability))])
  }

  function Integer(n: int): Json { if n < 0 then Negative(-n) else Number(n) }

  function Negative(n: nat): Json { Num("-" + Decimal(n)) }

  function AllowedDocument(req: Request, resp: Response): Json {
    Obj([
      Member("request", RequestDocument(req)),
      Member("result", Obj([
        Member("agentId", Str(resp.agentId)),
        Member("cache", Obj([
          Member("sourceSequence", Number(resp.cache.sourceSequence as nat)),
          Member("ttlSeconds", Integer(resp.cache.ttlSeconds))])),
        Member("endpointId", Str(resp.endpoint.id)),
        Member("endpointType", Str(resp.endpoint.kind)),
        Member("proofBundle", Obj([
          Member("agentAddrSignatureVerified", Bool(resp.proof.signatureVerified)),
          Member("agentFactsPointerHashVerified", Bool(resp.proof.pointerHashVerified)),
          Member("agentFactsSchemaVerified", Bool(resp.proof.schemaVerified)),
          Member("capabilityCredentialVerified", Bool(resp.proof.capabilityVerified)),
          Member("credentialSetVerified", Bool(resp.proof.credentialSetVerified)),
          Member("credentialStatus", Str(resp.proof.credentialStatus))])),
        Member("trustDecision", Str(resp.trustDecision))]))])
  }

  function DeniedDocument(req: Request, text: string): Json {
    Obj([Member("request", RequestDocument(req)),
          Member("result", Obj([Member("error", Str(text)), Member("reason", Str(text))]))])
  }

  predicate IsTrustDenial(e: ResolveError) { e.TrustNotConfigured? || e.TrustDenied? }

  /** The id and hash an event carries: both empty when the id could not be normalised. */
  function AgentOf(env: Env, req: Request): (string, string) {
    match NormalizeAgentID(req.agentId)
    case Err(_) => ("", "")
    case Ok(id) => (id, match AgentIDHash(env.sha, id) case Err(_) => "" case Ok(hash) => Hex(hash))
  }

  /** `errorText` gives the text of an error. */
  function Report(env: Env, errorText: ResolveError -> string, req: Request,
        outcome: Result<Response, ResolveError>): EventInput {
    var (id, hash) := AgentOf(env, req);
    match outcome
    case Ok(resp) => EventInput(EVENT_RESOLVE_ALLOWED, id, hash, "", DECISION_ALLOWED, "",
          Doc(AllowedDocument(req, resp)))
    case Err(e) =>
      EventInput(if IsTrustDenial(e) then EVENT_TRUST_DENIED else EVENT_RESOLVE_DENIED, id, hash, "", DECISION_DENIED,
                 errorText(e), Doc(DeniedDocument(req, errorText(e))))
  }

  /** An outcome written to the log before it is returned. */
  function Audited(env: Env, errorText: ResolveError -> string, events: seq<Event>, req: Request,
      outcome: Result<Response, ResolveError>, o: Oracle)
    : (seq<Event>, Result<Response, ResolveError>)
  {
    if !env.auditStore then (events, outcome)
    else match Appended(env, events, Report(env, errorText, req, outcome), o)
      case Ok(event) => (events + [event], outcome)
      case Err(e) => (events, Err(AuditFailed(e)))
  }

  /** The whole of `Resolve`. */
  function Resolved(env: Env, errorText: ResolveError -> string, s: Stores, up: Reads, req: Request, now: Instant,
      o: Oracle)
    : (seq<Event>, Result<Response, ResolveError>)
  {
    Audited(env, errorText, s.events, req, Outcome(env, s, up, req, now), o)
  }

  ghost predicate RecordsOutcome(e: Event, r: Result<Response, ResolveError>) {
    && (e.decision == DECISION_ALLOWED <==> r.Ok?) && (e.decision == DECISION_DENIED <==> r.Err?)
    && (e.eventType == EVENT_RESOLVE_ALLOWED <==> r.Ok?)
    && (e.eventType == EVENT_TRUST_DENIED <==> r.Err? && IsTrustDenial(r.error))
  }

  lemma AuditedOnce(env: Env, errorText: ResolveError -> string, events: seq<Event>, req: Request,
      outcome: Result<Response, ResolveError>, o: Oracle)
    requires env.auditStore && ChainValid(env.sha, Links(events))
    ensures var (events', r) := Audited(env, errorText, events, req, outcome, o);
            && ChainValid(env.sha, Links(events'))
            && (if o.up && o.eventId.Some?
                then |events'| == |events| + 1 && events <= events' && r == outcome
                    && RecordsOutcome(events'[|events|], outcome)
                else events' == events && r.Err? && r.error.AuditFailed?)
  {
    AppendedMeaning(env, events, Report(env, errorText, req, outcome), o);
  }

  /** Whatever happened, an audited resolve adds exactly one event, whose decision and type say
      how it ended, and the chain still verifies; when the event cannot be added nothing is
      returned but that failure. */
  lemma AuditCompleteness(env: Env, errorText: ResolveError -> string, s: Stores, up: Reads, req: Request,
      now: Instant, o: Oracle)
    requires env.auditStore && ChainValid(env.sha, Links(s.events))
    ensures var (events, r) := Resolved(env, errorText, s, up, req, now, o);
            && ChainValid(env.sha, Links(events))
            && (if o.up && o.eventId.Some?
                then |events| == |s.events| + 1 && s.events <= events && r == Outcome(env, s, up, req, now)
                     && RecordsOutcome(events[|s.events|], r)
                else events == s.events && r.Err? && r.error.AuditFailed?)
  {
    AuditedOnce(env, errorText, s.events, req, Outcome(env, s, up, req, now), o);
  }

  // ----- cache bounds -----

  /** `t` seconds stay within the endpoint's ttl and the record's life. */
  predicate Cacheable(t: int, endpoint: Endpoint, expiresAt: Instant, now: Instant) {
    t <= endpoint.ttlSeconds as int && now + t * NANOS_PER_SECOND <= expiresAt
  }

  lemma WholeSeconds(left: int, t: int)
    ensures t * NANOS_PER_SECOND <= left <==> t <= left / NANOS_PER_SECOND
  {
    assert left == left / NANOS_PER_SECOND * NANOS_PER_SECOND + left % NANOS_PER_SECOND;
  }

  /** The cache time is the largest whole number of seconds that is cacheable. */
  lemma CacheIsLargest(endpoint: Endpoint, createdAt: Instant, updatedAt: Instant, ttlSeconds: uint16, now: Instant,
        t: int)
    requires Freshness(createdAt, updatedAt, ttlSeconds, now).Some?
    ensures var cached := Min(Freshness(createdAt, updatedAt, ttlSeconds, now).value, endpoint.ttlSeconds as int);
            Cacheable(t, endpoint, ExpiresAt(createdAt, updatedAt, ttlSeconds), now) <==> t <= cached
  {
    var expiresAt := ExpiresAt(createdAt, updatedAt, ttlSeconds);
    WholeSeconds(expiresAt - now, t);
    WholeSeconds(MAX_DURATION, t);
    WholeSeconds(MAX_DURATION, 0x1_0000);
    WholeSeconds(expiresAt - now, 0x1_0000);
  }

  /** Validated facts have an endpoint to select, with a ttl of at least a second. */
  lemma ValidFactsHaveEndpoint(env: Env, facts: AgentFacts, id: string, capability: string, now: Instant)
    requires Validate(env.httpsUrl, facts, id, capability, now) == None
    ensures SelectEndpoint(facts.endpoints).Some? && SelectEndpoint(facts.endpoints).value.ttlSeconds > 0
  {
    ValidateExactly(env.httpsUrl, facts, id, capability, now);
    ServingHasEndpoint(env.httpsUrl, facts.endpoints);
  }

  lemma ServingHasEndpoint(httpsUrl: string -> bool, endpoints: seq<Endpoint>)
    requires endpoints != [] && forall e :: e in endpoints ==> IsServing(httpsUrl, e)
    ensures SelectEndpoint(endpoints).Some? && SelectEndpoint(endpoints).value.ttlSeconds > 0
  {
    assert endpoints[0] in endpoints;
    SelectIsPreferred(endpoints, endpoints[0]);
    var e := SelectEndpoint(endpoints).value;
    SelectIsPreferred(endpoints, e);
    var i: nat :| IsPreferred(endpoints, i) && endpoints[i] == e;
    assert endpoints[i] in endpoints;
  }

  /** `resp` may be cached for at least a second, for exactly the seconds that are cacheable. */
  ghost predicate WellCached(resp: Response, expiresAt: Instant, now: Instant, t: int) {
    && resp.cache.ttlSeconds >= 1
    && resp.cache.expiresAt == now + resp.cache.ttlSeconds * NANOS_PER_SECOND
    && (Cacheable(t, resp.endpoint, expiresAt, now) <==> t <= resp.cache.ttlSeconds)
  }

  lemma AnswerIsWellCached(req: Request, id: string, sequence: uint32, endpoint: Endpoint,
                           createdAt: Instant, updatedAt: Instant, ttlSeconds: uint16, now: Instant, t: int)
    requires Freshness(createdAt, updatedAt, ttlSeconds, now).Some? && endpoint.ttlSeconds > 0
    ensures WellCached(Answer(req, id, sequence, Freshness(createdAt, updatedAt, ttlSeconds, now).value, endpoint, now),
                       ExpiresAt(createdAt, updatedAt, ttlSeconds), now, t)
  {
    CacheIsLargest(endpoint, createdAt, updatedAt, ttlSeconds, now, t);
  }

  lemma ConcludedIsWellCached(req: Request, id: string, p: Payload, endpoints: seq<Endpoint>, createdAt: Instant,
      updatedAt: Instant,
                              now: Instant, bound: bool, refused: Option<ResolveError>, t: int)
    requires Freshness(createdAt, updatedAt, p.ttlSeconds, now).Some? && refused != Some(NoEndpoint)
    requires SelectEndpoint(endpoints).Some? && SelectEndpoint(endpoints).value.ttlSeconds > 0
    ensures var r := Conclude(req, id, p.sequence, Freshness(createdAt, updatedAt, p.ttlSeconds, now).value, endpoints,
              now, bound, refused);
            r != Err(NoEndpoint)
            && (r.Ok? ==> WellCached(r.value, ExpiresAt(createdAt, updatedAt, p.ttlSeconds), now, t))
  {
    AnswerIsWellCached(req, id, p.sequence, SelectEndpoint(endpoints).value, createdAt, updatedAt, p.ttlSeconds, now,
          t);
  }

  lemma JudgedIsWellCached(env: Env, revocations: Revocation.Records, req: Request, id: string, p: Payload,
      facts: AgentFacts,
                           createdAt: Instant, updatedAt: Instant, now: Instant, t: int)
    requires Freshness(createdAt, updatedAt, p.ttlSeconds, now).Some?
    ensures var r := JudgeFacts(env, revocations, req, id, p.sequence,
              Freshness(createdAt, updatedAt, p.ttlSeconds, now).value,
                                p.credentialSet128, facts, now);
            r != Err(NoEndpoint)
            && (r.Ok? ==> WellCached(r.value, ExpiresAt(createdAt, updatedAt, p.ttlSeconds), now, t))
  {
    if Validate(env.httpsUrl, facts, id, req.requiredCapability, now) == None {
      ValidFactsHaveEndpoint(env, facts, id, req.requiredCapability, now);
      ConcludedIsWellCached(req, id, p, facts.endpoints, createdAt, updatedAt, now,
                            CredentialSetHash(env.sha, facts.credentials) == p.credentialSet128,
                            Trusts(env, revocations, req, id, facts, now), t);
    }
  }

  /** The index entry a request is about. */
  function FoundFor(env: Env, s: Stores, req: Request): Option<Index.IndexedRecord> {
    match NormalizeAgentID(req.agentId)
    case Err(_) => None
    case Ok(id) => match Index.GetFrom(s.index, Truncated(env.sha, id))
      case Err(_) => None
      case Ok(found) => Some(found)
  }

  function LifeEnd(found: Index.IndexedRecord): Instant {
    ExpiresAt(found.createdAt, found.updatedAt, found.record.Payload().ttlSeconds)
  }

  /** Every answer may be cached for at least one second, for as long as both the endpoint and
      the record allow and not a second longer; and the last check never refuses. */
  lemma CacheBound(env: Env, s: Stores, up: Reads, req: Request, now: Instant, t: int)
    ensures Outcome(env, s, up, req, now) != Err(NoEndpoint)
    ensures Outcome(env, s, up, req, now).Ok? ==>
              && FoundFor(env, s, req).Some?
              && WellCached(Outcome(env, s, up, req, now).value, LifeEnd(FoundFor(env, s, req).value), now, t)
  {
    if NormalizeAgentID(req.agentId).Ok? {
      NormalizeIdempotent(req.agentId);
      var id := NormalizeAgentID(req.agentId).value;
      ResolvedHashIsWellCached(env, s, up, req, id, Truncated(env.sha, id), now, t);
    }
  }

  lemma ResolvedHashIsWellCached(env: Env, s: Stores, up: Reads, req: Request, id: string, hash: Hash128, now: Instant,
      t: int)
    ensures ResolveHash(env, s, up, req, id, hash, now) != Err(NoEndpoint)
    ensures ResolveHash(env, s, up, req, id, hash, now).Ok? ==>
              && Index.GetFrom(s.index, hash).Ok?
              && WellCached(ResolveHash(env, s, up, req, id, hash, now).value,
                     LifeEnd(Index.GetFrom(s.index, hash).value), now, t)
  {
    if LoadRecord(env, s, up, hash).Ok? {
      var found := LoadRecord(env, s, up, hash).value;
      var p := found.record.Payload();
      if Freshness(found.createdAt, found.updatedAt, p.ttlSeconds, now).Some? && LoadFacts(env, s, up, p).Ok? {
        JudgedIsWellCached(env, s.revocations, req, id, p, LoadFacts(env, s, up, p).value, found.createdAt,
              found.updatedAt, now, t);
      }
    }
  }

  // ----- the service -----

  class Service {
    const env: Env
    const errorText: ResolveError -> string
    const indexStore: Index.PostgresStore
    const factsStore: Facts.FilesystemStore
    const pointerResolver: Facts.PostgresPointerStore
    const revocationStore: Revocation.MemoryStore
    const auditStore: AuditStore.MemoryStore?

    ghost predicate Valid()
      reads this, if auditStore == null then {} else {auditStore}
    {
      && Configured(env) && env.auditStore == (auditStore != null)
      && (auditStore != null ==> auditStore.sha == env.sha && auditStore.Valid())
    }

    function Log(): seq<Event>
      reads this, if auditStore == null then {} else {auditStore}
    {
      if auditStore == null then [] else auditStore.events
    }

    ghost function Seen(): Stores
      reads this, indexStore, factsStore, pointerResolver, revocationStore, if auditStore == null then {}
          else {auditStore}
    {
      Stores(factsStore.files, pointerResolver.rows, indexStore.Rows(), revocationStore.records, Log())
    }

    constructor (env: Env, errorText: ResolveError -> string, indexStore: Index.PostgresStore,
                 factsStore: Facts.FilesystemStore, pointerResolver: Facts.PostgresPointerStore,
                 revocationStore: Revocation.MemoryStore, auditStore: AuditStore.MemoryStore?)
      requires Configured(env) && env.auditStore == (auditStore != null)
      requires auditStore != null ==> auditStore.sha == env.sha && auditStore.Valid()
      ensures Valid()
      ensures this.env == env && this.errorText == errorText && this.indexStore == indexStore
      ensures this.factsStore == factsStore
      ensures this.pointerResolver == pointerResolver && this.revocationStore == revocationStore
      ensures this.auditStore == auditStore
    {
      this.env, this.errorText, this.indexStore, this.factsStore := env, errorText, indexStore, factsStore;
      this.pointerResolver, this.revocationStore, this.auditStore := pointerResolver, revocationStore, auditStore;
    }

    /** `now` is the clock reading at the start; `up` and `o` say what the reads and the append
        of the audit event meet. */
    method Resolve(req: Request, now: Instant, up: Reads, o: Oracle) returns (r: Result<Response, ResolveError>)
      requires Valid()
      modifies if auditStore == null then {} else {auditStore}
      ensures Valid()
      ensures (Log(), r) == Resolved(env, errorText, old(Seen()), up, req, now, o)
    {
      var agentId := NormalizeAgentID(req.agentId);
      if agentId.Err? {
        r := AuditOutcome(req, "", "", Err(InvalidAgentId(agentId.error)), o);
        return;
      }
      NormalizeIdempotent(req.agentId);
      var id := agentId.value;
      var agentHash := AgentIDHash(env.sha, id);
      var outcome := Find(req, id, agentHash.value, now, up);
      r := AuditOutcome(req, id, Hex(agentHash.value), outcome, o);
    }

    method Find(req: Request, id: string, hash: Hash128, now: Instant, up: Reads) returns (r: Result<Response,
        ResolveError>)
      ensures r == ResolveHash(env, Seen(), up, req, id, hash, now)
    {
      var found := FindRecord(hash, up);
      if found.Err? {
        return Err(found.error);
      }
      var payload := found.value.record.Payload();
      var freshness := Freshness(found.value.createdAt, found.value.updatedAt, payload.ttlSeconds, now);
      if freshness.None? {
        return Err(Expired);
      }
      var facts := FindFacts(payload, up);
      if facts.Err? {
        return Err(facts.error);
      }
      r := Judge(req, id, payload, freshness.value, facts.value, now);
    }

    method FindRecord(hash: Hash128, up: Reads) returns (r: Result<Index.IndexedRecord, ResolveError>)
      ensures r == LoadRecord(env, Seen(), up, hash)
    {
      if !up.index {
        return Err(IndexFailed(Index.IndexUnavailable));
      }
      var got := indexStore.Get(hash);
      if got == Err(Index.RecordNotFound) {
        return Err(RecordNotFound);
      }
      if got.Err? {
        return Err(IndexFailed(got.error));
      }
      var invalid := Verify(env.scheme, got.value.record, env.publicKey);
      if invalid.Some? {
        return Err(BadSignature(invalid.value));
      }
      if got.value.record.Payload().agentIdHash != hash {
        return Err(IdHashMismatch);
      }
      r := Ok(got.value);
    }

    method FindFacts(payload: Payload, up: Reads) returns (r: Result<AgentFacts, ResolveError>)
      ensures r == LoadFacts(env, Seen(), up, payload)
    {
      if !up.pointers {
        return Err(PointerFailed(Facts.Unavailable));
      }
      var pointer := pointerResolver.ResolveFactsPointer(payload.factsPtrHash128);
      if pointer.Err? {
        return Err(PointerNotFound);
      }
      if Facts.PointerHash(env.sha, pointer.value) != payload.factsPtrHash128 {
        return Err(PointerHashMismatch);
      }
      if !up.facts {
        return Err(FactsFailed(Facts.Unavailable));
      }
      var bytes := factsStore.Get(pointer.value);
      if bytes == Err(Facts.FactsNotFound) {
        return Err(FactsNotFound);
      }
      if bytes.Err? {
        return Err(FactsFailed(bytes.error));
      }
      var decoded := env.parse(bytes.value);
      if decoded.None? {
        return Err(FactsUndecodable);
      }
      r := Ok(decoded.value);
    }

    method Judge(req: Request, id: string, payload: Payload, freshness: int, facts: AgentFacts, now: Instant)
      returns (r: Result<Response, ResolveError>)
      ensures r == JudgeFacts(env, revocationStore.records, req, id, payload.sequence, freshness,
                payload.credentialSet128, facts, now)
    {
      var invalid := Validate(env.httpsUrl, facts, id, req.requiredCapability, now);
      if invalid.Some? {
        return Err(FactsInvalid(invalid.value));
      }
      var credentialSet := CredentialSetHash128(env.sha, facts.credentials);
      if credentialSet != payload.credentialSet128 {
        return Err(CredentialSetMismatch);
      }
      if req.requiredCapability != "" {
        if env.trust.None? {
          return Err(TrustNotConfigured);
        }
        var refused := Trust.VerifyCapability(env.trust.value, revocationStore, facts.credentials, id,
              req.requiredCapability, now);
        if refused.Some? {
          return Err(TrustDenied(refused.value));
        }
      }
      var endpoint := SelectEndpoint(facts.endpoints);
      if endpoint.None? {
        return Err(NoEndpoint);
      }
      r := Ok(Answer(req, id, payload.sequence, freshness, endpoint.value, now));
    }

    /** `auditResolveSuccess` and `auditResolveFailure`. */
    method AuditOutcome(req: Request, id: string, hash: string, outcome: Result<Response, ResolveError>, o: Oracle)
      returns (r: Result<Response, ResolveError>)
      requires Valid() && (id, hash) == AgentOf(env, req)
      modifies if auditStore == null then {} else {auditStore}
      ensures Valid()
      ensures (Log(), r) == Audited(env, errorText, old(Log()), req, outcome, o)
    {
      if auditStore == null {
        return outcome;
      }
      var input: EventInput;
      if outcome.Ok? {
        input := EventInput(EVENT_RESOLVE_ALLOWED, id, hash, "", DECISION_ALLOWED, "",
              Doc(AllowedDocument(req, outcome.value)));
      } else {
        var eventType := if IsTrustDenial(outcome.error) then EVENT_TRUST_DENIED else EVENT_RESOLVE_DENIED;
        var text := errorText(outcome.error);
        input := EventInput(eventType, id, hash, "", DECISION_DENIED, text, Doc(DeniedDocument(req, text)));
      }
      var appended := auditStore.Append(input, o.eventId, o.now, o.up);
      r := if appended.Ok? then outcome else Err(AuditFailed(appended.error));
    }
  }
}
