/** The admin service: setting credential status, and looking agents up. */
module Admin {
  import opened Prelude
  import opened Text
  import opened Clock
  import opened Json
  import opened CanonicalJson
  import opened AgentAddr
  import opened Audit
  import opened Revocation
  import opened World
  import AuditStore
  import Index
  import Resolver

  datatype AdminError =
    | InvalidAgentId(id: IdError) | InvalidStatus(why: RevocationError) | InvalidQuery(audit: AuditError)
    | AgentNotFound | IndexFailed(index: Index.IndexError)
    | StatusFailed(why: RevocationError) | AuditFailed(audit: AuditError)

  // ----- credential status -----

  function StatusDocument(w: Write): Json {
    Obj([Member("issuer", Str(w.key.issuer)), Member("credentialId", Str(w.key.credentialId)),
          Member("status", Str(w.status))]
        + OmitEmpty("reason", w.reason))
  }

  function StatusInput(w: Write): EventInput {
    EventInput(EVENT_REVOCATION_UPDATED, "", "", "", DECISION_ALLOWED, "", Doc(StatusDocument(w)))
  }

  /** The first half of `SetRevocationStatus`: the table. */
  function StatusWritten(s: Stores, w: Write, up: bool): (Stores, Option<AdminError>) {
    match ValidateWrite(w.key, w.status)
    case Some(e) => (s, Some(InvalidStatus(e)))
    case None => if up then (s.(revocations := Applied(s.revocations, w)), None)
        else (s, Some(StatusFailed(RevocationUnavailable)))
  }

  /** The second half: the log. */
  function StatusLogged(env: Env, s: Stores, w: Write, o: Oracle): (Stores, Option<AdminError>) {
    match Appended(env, s.events, StatusInput(w), o)
    case Err(e) => (s, Some(AuditFailed(e)))
    case Ok(event) => (s.(events := s.events + [event]), None)
  }

  /** Both halves with nothing in between: the status stays when the event then cannot be added. */
  function StatusSet(env: Env, s: Stores, w: Write, up: bool, o: Oracle): (Stores, Option<AdminError>) {
    var (written, failed) := StatusWritten(s, w, up);
    if failed.Some? then (written, failed) else StatusLogged(env, written, w, o)
  }

  // ----- agents -----

  /** What `GetAgent` reports of a record, times unformatted; a zero time is left out. */
  datatype AgentReport = AgentReport(
    agentId: string, agentHash: string, payload: Payload, record: seq<byte>,
    createdAt: Option<Instant>, updatedAt: Option<Instant>, expiresAt: Option<Instant>, expired: bool)

  function NonZero(t: Instant): Option<Instant> { if t == ZERO_TIME then None else Some(t) }

  function ReportOf(id: string, hash: Hash128, found: Index.IndexedRecord, now: Instant): AgentReport {
    var payload := found.record.Payload();
    var time := Resolver.RecordTime(found.createdAt, found.updatedAt);
    var expiresAt := if time == ZERO_TIME then None else Some(time + payload.ttlSeconds as int * NANOS_PER_SECOND);
    AgentReport(id, Hex(hash), payload, found.record.Bytes(), NonZero(found.createdAt), NonZero(found.updatedAt),
          expiresAt,
                expiresAt.Some? && expiresAt.value <= now)
  }

  function AgentFound(env: Env, t: Index.Tables, agentId: string, now: Instant): Result<AgentReport, AdminError> {
    match NormalizeAgentID(agentId)
    case Err(e) => Err(InvalidAgentId(e))
    case Ok(id) => match AgentIDHash(env.sha, id)
      case Err(e) => Err(InvalidAgentId(e))
      case Ok(hash) => match Index.GetFrom(t, hash)
        case Err(e) => Err(if e == Index.RecordNotFound then AgentNotFound else IndexFailed(e))
        case Ok(found) => Ok(ReportOf(id, hash, found, now))
  }

  /** An agent is reported as expired exactly when resolving it at that moment would refuse it as
      expired, but for records without a time and for the last second of a record's life, in
      which resolving already refuses. */
  lemma ExpiryAgrees(id: string, hash: Hash128, found: Index.IndexedRecord, now: Instant)
    ensures var report := ReportOf(id, hash, found, now);
            Resolver.Freshness(found.createdAt, found.updatedAt, found.record.Payload().ttlSeconds, now) == None <==>
              report.expired || report.expiresAt == None || report.expiresAt.value - now < NANOS_PER_SECOND
  {
    var report := ReportOf(id, hash, found, now);
    if report.expiresAt.Some? {
      Resolver.WholeSeconds(report.expiresAt.value - now, 1);
      Resolver.WholeSeconds(Resolver.MAX_DURATION, 1);
    }
  }

  datatype StatusReport = StatusReport(key: Key, status: string, reason: string, found: bool,
        updatedAt: Option<Instant>)

  function StatusOf(records: Records, k: Key): Result<StatusReport, AdminError> {
    match StatusIn(records, k)
    case Err(e) => if e == StatusNotFound then Ok(StatusReport(k, STATUS_ACTIVE, "", false, None))
        else Err(InvalidStatus(e))
    case Ok(r) => Ok(StatusReport(Key(r.issuer, r.credentialId), r.status, r.reason, true, Some(r.updatedAt)))
  }

  /** The reported status is `revoked` exactly when a trust check would find the credential
      revoked, and the two refuse the same keys. */
  lemma StatusAgreesWithTrust(records: Records, k: Key)
    ensures StatusOf(records, k).Ok? <==> RevokedIn(records, k).Ok?
    ensures StatusOf(records, k).Ok? ==> (StatusOf(records, k).value.status == STATUS_REVOKED <==>
              RevokedIn(records, k) == Ok(true))
  {}

  function AgentQuery(agentId: string, q: AuditStore.Query): Result<AuditStore.Query, AdminError> {
    match NormalizeAgentID(agentId) case Err(e) => Err(InvalidAgentId(e)) case Ok(id) => Ok(q.(agentId := id))
  }

  // ----- the service -----

  class Service {
    const env: Env
    const indexStore: Index.PostgresStore
    const auditStore: AuditStore.MemoryStore
    const revocationStore: MemoryStore

    ghost predicate Valid()
      reads this, auditStore
    {
      auditStore.sha == env.sha && auditStore.Valid()
    }

    ghost function Seen(): Stores
      reads this, indexStore, auditStore, revocationStore
    {
      Stores(map[], map[], indexStore.Rows(), revocationStore.records, auditStore.events)
    }

    constructor (env: Env, indexStore: Index.PostgresStore, auditStore: AuditStore.MemoryStore,
          revocationStore: MemoryStore)
      requires auditStore.sha == env.sha && auditStore.Valid()
      ensures Valid() && this.env == env
      ensures this.indexStore == indexStore && this.auditStore == auditStore && this.revocationStore == revocationStore
    {
      this.env, this.indexStore, this.auditStore, this.revocationStore := env, indexStore, auditStore, revocationStore;
    }

    /** `up` says whether the status store takes the write; `o` is what the append meets. */
    method SetRevocationStatus(w: Write, up: bool, o: Oracle) returns (r: Option<AdminError>)
      requires Valid()
      modifies revocationStore, auditStore
      ensures Valid()
      ensures (Seen(), r) == StatusSet(env, old(Seen()), w, up, o)
    {
      var invalid := ValidateWrite(w.key, w.status);
      if invalid.Some? {
        return Some(InvalidStatus(invalid.value));
      }
      var unwritten := revocationStore.SetStatus(w.key, w.status, w.reason, w.now, up);
      if unwritten.Some? {
        return Some(StatusFailed(unwritten.value));
      }
      var appended := auditStore.Append(StatusInput(w), o.eventId, o.now, o.up);
      r := if appended.Err? then Some(AuditFailed(appended.error)) else None;
    }

    method GetAgent(agentId: string, now: Instant) returns (r: Result<AgentReport, AdminError>)
      ensures r == AgentFound(env, indexStore.Rows(), agentId, now)
    {
      var id := NormalizeAgentID(agentId);
      if id.Err? {
        return Err(InvalidAgentId(id.error));
      }
      NormalizeIdempotent(agentId);
      var hash := AgentIDHash(env.sha, id.value);
      var found := indexStore.Get(hash.value);
      if found.Err? {
        return Err(if found.error == Index.RecordNotFound then AgentNotFound else IndexFailed(found.error));
      }
      r := Ok(ReportOf(id.value, hash.value, found.value, now));
    }

    method GetRevocationStatus(k: Key) returns (r: Result<StatusReport, AdminError>)
      ensures r == StatusOf(revocationStore.records, k)
      ensures r.Ok? <==> RevokedIn(revocationStore.records, k).Ok?
      ensures r.Ok? ==> (r.value.status == STATUS_REVOKED <==> RevokedIn(revocationStore.records, k) == Ok(true))
    {
      StatusAgreesWithTrust(revocationStore.records, k);
      var invalid := ValidateKey(k);
      if invalid.Some? {
        return Err(InvalidStatus(invalid.value));
      }
      var record := revocationStore.GetStatus(k);
      if record.Err? {
        return Ok(StatusReport(k, STATUS_ACTIVE, "", false, None));
      }
      r := Ok(StatusReport(Key(record.value.issuer, record.value.credentialId), record.value.status,
                           record.value.reason, true, Some(record.value.updatedAt)));
    }

    method ListAuditByAgent(agentId: string, q: AuditStore.Query) returns (r: Result<AuditStore.ListResult, AdminError>)
      ensures match AgentQuery(agentId, q)
              case Err(e) => r == Err(e)
              case Ok(query) => match AuditStore.Answer(auditStore.events, query)
                case Err(e) => r == Err(InvalidQuery(e))
                case Ok(result) => r == Ok(result)
    {
      var query := AgentQuery(agentId, q);
      if query.Err? {
        return Err(query.error);
      }
      var result := auditStore.Query(query.value);
      r := if result.Err? then Err(InvalidQuery(result.error)) else Ok(result.value);
    }
  }
}
