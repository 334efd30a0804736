/** Registering an agent: ordered writes to four stores, any of which can be the last. */
module Registration {
  import opened Prelude
  import opened Text
  import opened Json
  import opened CanonicalJson
  import opened AgentAddr
  import opened Audit
  import opened World
  import AgentFacts
  import AuditStore
  import Clock
  import Facts
  import Index

  datatype Request = Request(agentId: string, ttlSeconds: uint16, flags: byte, sequence: uint32, facts: string)

  datatype Response = Response(
    agentId: string, factsPointer: string, factsPtrHash128: string, credentialSet128: string,
    sequence: uint32, ttlSeconds: uint16, agentAddrRecordBase64: string)

  datatype RegisterError =
    | InvalidAgentId(id: IdError) | InvalidTtl | FactsNotJson | FactsUndecodable
    | FactsFailed(store: Facts.StoreError) | PointerFailed(store: Facts.StoreError)
    | RecordFailed(record: RecordError) | IndexFailed(index: Index.IndexError) | AuditFailed(audit: AuditError)

  function ValidateRequest(env: Env, req: Request): Result<string, RegisterError> {
    match NormalizeAgentID(req.agentId)
    case Err(e) => Err(InvalidAgentId(e))
    case Ok(id) => if req.ttlSeconds == 0 then Err(InvalidTtl) else if !env.validJson(req.facts) then Err(FactsNotJson)
        else Ok(id)
  }

  function PointerOf(env: Env, req: Request): Facts.FactsPointer { Facts.PointerFor(env.sha, req.facts) }

  /** The signed record a request leads to, computed between the pointer and the index write. */
  function Prepare(env: Env, id: string, req: Request): Result<AgentAddr120, RegisterError> {
    match env.parse(req.facts)
    case None => Err(FactsUndecodable)
    case Some(facts) =>
      match New(env.sha, id, req.ttlSeconds, req.flags, req.sequence,
                Facts.PointerHash(env.sha, PointerOf(env, req)),
                AgentFacts.CredentialSetHash(env.sha, facts.credentials))
      case Err(e) => Err(RecordFailed(e))
      case Ok(payload) => match Signed(env.scheme, payload, env.privateKey)
        case Err(e) => Err(RecordFailed(e))
        case Ok(record) => Ok(record)
  }

  /** The payload a request should be signed into. */
  function Promised(env: Env, id: string, req: Request, facts: AgentFacts.AgentFacts): Payload {
    Payload(VERSION_1, req.flags, req.ttlSeconds, req.sequence, Truncated(env.sha, id),
            Facts.PointerHash(env.sha, PointerOf(env, req)), AgentFacts.CredentialSetHash(env.sha, facts.credentials))
  }

  /** Once a request is valid, only undecodable facts stop its record; the record says what was
      promised, passes the index's own checks, and verifies under the matching key. */
  lemma PrepareMeaning(env: Env, id: string, req: Request)
    requires Configured(env) && ValidateRequest(env, req) == Ok(id)
    ensures Prepare(env, id, req) == Err(FactsUndecodable) <==> env.parse(req.facts) == None
    ensures Prepare(env, id, req).Ok? <==> env.parse(req.facts).Some?
    ensures Prepare(env, id, req).Ok? ==>
              var r := Prepare(env, id, req).value;
              && r.Payload() == Promised(env, id, req, env.parse(req.facts).value)
              && Decoded(r.Bytes()) == Ok(r) && Index.PutChecks(env.sha, id, r) == None
              && (KeysMatch(env) ==> Verify(env.scheme, r, env.publicKey) == None)
  {
    NormalizeIdempotent(req.agentId);
    if env.parse(req.facts).Some? {
      var p := Promised(env, id, req, env.parse(req.facts).value);
      PayloadBijection(p, Layout(p));
      var r := Prepare(env, id, req).value;
      RecordBijection(r.Bytes(), r);
    }
  }

  function ResponseOf(env: Env, id: string, req: Request, record: AgentAddr120): Response {
    var p := record.Payload();
    Response(id, PointerOf(env, req).Text(), Hex(p.factsPtrHash128), Hex(p.credentialSet128),
             req.sequence, req.ttlSeconds, env.base64(record.Bytes()))
  }

  // ----- the audit event -----

  /** The keys of each object in the order marshalling a Go map gives them. */
  function RegisteredDocument(req: Request, resp: Response): Json {
    Obj([
      Member("request", Obj([
        Member("agentId", Str(req.agentId)),
        Member("flags", Number(req.flags as nat)),
        Member("sequence", Number(req.sequence as nat)),
        Member("ttlSeconds", Number(req.ttlSeconds as nat))])),
      Member("result", Obj([
        Member("agentId", Str(resp.agentId)),
        Member("credentialSet128", Str(resp.credentialSet128)),
        Member("factsPointer", Str(resp.factsPointer)),
        Member("factsPtrHash128", Str(resp.factsPtrHash128)),
        Member("sequence", Number(resp.sequence as nat)),
        Member("ttlSeconds", Number(resp.ttlSeconds as nat))]))])
  }

  function RegisteredInput(env: Env, req: Request, resp: Response, agentHash: Hash128): EventInput {
    EventInput(EVENT_AGENT_REGISTERED, resp.agentId, Hex(agentHash), "", DECISION_ALLOWED, "",
          Doc(RegisteredDocument(req, resp)))
  }

  // ----- a registration as a process -----

  /** A registration in flight: how many of its four writes it has behind it, and its result
      once it has ended.  One that crashed is one that is never advanced again. */
  datatype Process = Process(req: Request, id: string, written: nat, result: Option<Result<Response, RegisterError>>)

  function Started(env: Env, req: Request): Process {
    match ValidateRequest(env, req)
    case Err(e) => Process(req, "", 0, Some(Err(e)))
    case Ok(id) => Process(req, id, 0, None)
  }

  function Failed(p: Process, e: RegisterError): Process { p.(result := Some(Err(e))) }

  function StoreFacts(env: Env, s: Stores, p: Process, o: Oracle): (Stores, Process) {
    if !o.up then (s, Failed(p, FactsFailed(Facts.Unavailable)))
    else (s.(files := Facts.FilePut(env.sha, s.files, p.req.facts)), p.(written := 1))
  }

  function StorePointer(env: Env, s: Stores, p: Process, o: Oracle): (Stores, Process) {
    if !env.pointerStore then (s, p.(written := 2))
    else if !o.up then (s, Failed(p, PointerFailed(Facts.Unavailable)))
    else
      var pointer := PointerOf(env, p.req);
      (s.(pointers := s.pointers[Facts.PointerKey(env.sha, pointer) := pointer]), p.(written := 2))
  }

  function IndexRecord(env: Env, s: Stores, p: Process, o: Oracle): (Stores, Process) {
    match Prepare(env, p.id, p.req)
    case Err(e) => (s, Failed(p, e))
    case Ok(record) =>
      if Index.PutChecks(env.sha, p.id, record) == None && !o.up
          then (s, Failed(p, IndexFailed(Index.IndexUnavailable)))
      else
        var (index, err) := Index.PutInto(env.sha, s.index, p.id, record, o.now);
        (s.(index := index), if err == None then p.(written := 3) else Failed(p, IndexFailed(err.value)))
  }

  lemma IndexWrite(env: Env, s: Stores, p: Process, record: AgentAddr120, o: Oracle, index: Index.Tables,
      refused: Option<Index.IndexError>)
    requires p.written == 2 && p.result == None && Prepare(env, p.id, p.req) == Ok(record)
    requires Index.PutChecks(env.sha, p.id, record).Some? || o.up ==>
               (index, refused) == Index.PutInto(env.sha, s.index, p.id, record, o.now)
    requires Index.PutChecks(env.sha, p.id, record).None? && !o.up ==>
               index == s.index && refused == Some(Index.IndexUnavailable)
    ensures Advance(env, s, p, o) ==
            (s.(index := index), if refused == None then p.(written := 3) else Failed(p, IndexFailed(refused.value)))
  {
    assert Advance(env, s, p, o) == IndexRecord(env, s, p, o);
    if Index.PutChecks(env.sha, p.id, record).Some? { CheckedPut(env.sha, s.index, p.id, record, o.now); }
  }

  lemma CheckedPut(sha: Sha, t: Index.Tables, id: string, record: AgentAddr120, now: Clock.Instant)
    requires Index.PutChecks(sha, id, record).Some?
    ensures Index.PutInto(sha, t, id, record, now) == (t, Index.PutChecks(sha, id, record))
  {}

  function AuditRecord(env: Env, s: Stores, p: Process, o: Oracle): (Stores, Process) {
    match (Prepare(env, p.id, p.req), AgentIDHash(env.sha, p.id))
    case (Err(e), _) => (s, Failed(p, e))
    case (_, Err(e)) => (s, Failed(p, InvalidAgentId(e)))
    case (Ok(record), Ok(hash)) => AuditResponse(env, s, p, ResponseOf(env, p.id, p.req, record), hash, o)
  }

  function AuditResponse(env: Env, s: Stores, p: Process, resp: Response, hash: Hash128, o: Oracle): (Stores, Process) {
    if !env.auditStore then (s, p.(result := Some(Ok(resp))))
    else match Appended(env, s.events, RegisteredInput(env, p.req, resp, hash), o)
      case Err(e) => (s, Failed(p, AuditFailed(e)))
      case Ok(event) => (s.(events := s.events + [event]), p.(written := 4, result := Some(Ok(resp))))
  }

  lemma AuditWrite(env: Env, s: Stores, p: Process, record: AgentAddr120, hash: Hash128, o: Oracle, t: Stores,
      r: Result<Response, RegisterError>)
    requires p.written == 3 && p.result == None && Prepare(env, p.id, p.req) == Ok(record)
    requires AgentIDHash(env.sha, p.id) == Ok(hash)
    requires var after := AuditResponse(env, s, p, ResponseOf(env, p.id, p.req, record), hash, o);
             after.0 == t && after.1.result == Some(r)
    ensures var after := Advance(env, s, p, o); after.0 == t && after.1.result == Some(r)
  {}

  /** The next write of a registration. */
  function Advance(env: Env, s: Stores, p: Process, o: Oracle): (Stores, Process) {
    if p.result.Some? then (s, p)
    else if p.written == 0 then StoreFacts(env, s, p, o)
    else if p.written == 1 then StorePointer(env, s, p, o)
    else if p.written == 2 then IndexRecord(env, s, p, o)
    else if p.written == 3 then AuditRecord(env, s, p, o)
    else (s, p)
  }

  datatype Oracles = Oracles(facts: Oracle, pointer: Oracle, index: Oracle, audit: Oracle)

  /** A registration that runs with nothing in between. */
  function Alone(env: Env, s: Stores, req: Request, o: Oracles): (Stores, Process) {
    var (s1, p1) := Advance(env, s, Started(env, req), o.facts);
    var (s2, p2) := Advance(env, s1, p1, o.pointer);
    var (s3, p3) := Advance(env, s2, p2, o.index);
    Advance(env, s3, p3, o.audit)
  }

  // ----- the service -----

  class Service {
    const env: Env
    const factsStore: Facts.FilesystemStore
    const pointerStore: Facts.PostgresPointerStore?
    const indexStore: Index.PostgresStore
    const auditStore: AuditStore.MemoryStore?

    ghost predicate Valid()
      reads this, factsStore, indexStore, if pointerStore == null then {}
          else {pointerStore}, if auditStore == null then {} else {auditStore}
    {
      && Configured(env) && factsStore.sha == env.sha && indexStore.sha == env.sha
      && env.pointerStore == (pointerStore != null) && (pointerStore != null ==> pointerStore.sha == env.sha)
      && env.auditStore == (auditStore != null) && (auditStore != null ==>
             auditStore.sha == env.sha && auditStore.Valid())
    }

    /** The state the service sees.  Status records are none of its business. */
    ghost function Seen(): Stores
      reads this, factsStore, indexStore, if pointerStore == null then {}
          else {pointerStore}, if auditStore == null then {} else {auditStore}
    {
      Stores(factsStore.files, if pointerStore == null then map[] else pointerStore.rows, indexStore.Rows(),
             map[], if auditStore == null then [] else auditStore.events)
    }

    constructor (env: Env, factsStore: Facts.FilesystemStore, pointerStore: Facts.PostgresPointerStore?,
                 indexStore: Index.PostgresStore, auditStore: AuditStore.MemoryStore?)
      requires Configured(env) && factsStore.sha == env.sha && indexStore.sha == env.sha
      requires env.pointerStore == (pointerStore != null) && (pointerStore != null ==> pointerStore.sha == env.sha)
      requires env.auditStore == (auditStore != null)
      requires (auditStore != null ==> auditStore.sha == env.sha && auditStore.Valid())
      ensures Valid()
      ensures this.env == env && this.factsStore == factsStore && this.pointerStore == pointerStore
      ensures this.indexStore == indexStore && this.auditStore == auditStore
    {
      this.env, this.factsStore, this.pointerStore := env, factsStore, pointerStore;
      this.indexStore, this.auditStore := indexStore, auditStore;
    }

    /** Registering does what the process does when it runs alone, write by write, and stops
        where it stops. */
    method Register(req: Request, o: Oracles) returns (r: Result<Response, RegisterError>)
      requires Valid()
      modifies factsStore, indexStore, if pointerStore == null then {}
          else {pointerStore}, if auditStore == null then {} else {auditStore}
      ensures Valid()
      ensures Alone(env, old(Seen()), req, o).0 == Seen()
      ensures Alone(env, old(Seen()), req, o).1.result == Some(r)
    {
      var agentId := ValidateRequest(env, req);
      if agentId.Err? {
        return Err(agentId.error);
      }
      ghost var p0 := Started(env, req);

      var pointer, unstored := PutFacts(req, p0, o.facts);
      if unstored.Some? {
        return Err(unstored.value);
      }
      ghost var p1 := p0.(written := 1);

      unstored := PutPointer(pointer, p1, o.pointer);
      if unstored.Some? {
        return Err(unstored.value);
      }
      ghost var p2 := p1.(written := 2);

      var record := BuildRecord(agentId.value, req, pointer);
      if record.Err? {
        return Err(record.error);
      }
      var refused := PutRecord(record.value, agentId.value, p2, o.index);
      if refused.Some? {
        return Err(refused.value);
      }
      r := Audit(req, pointer, record.value, agentId.value, p2.(written := 3), o.audit);
    }

    method PutFacts(req: Request, ghost p: Process, o: Oracle) returns (pointer: Facts.FactsPointer,
        failed: Option<RegisterError>)
      requires Valid() && p.req == req && p.written == 0 && p.result == None
      modifies factsStore
      ensures Valid() && Advance(env, old(Seen()), p, o) == (Seen(), if failed == None then p.(written := 1)
              else Failed(p, failed.value))
      ensures failed == None ==> pointer == PointerOf(env, req)
    {
      var stored := factsStore.Put(req.facts, o.up);
      if stored.Err? {
        return PointerOf(env, req), Some(FactsFailed(stored.error));
      }
      pointer, failed := stored.value, None;
    }

    method PutPointer(pointer: Facts.FactsPointer, ghost p: Process, o: Oracle) returns (failed: Option<RegisterError>)
      requires Valid() && p.written == 1 && p.result == None && pointer == PointerOf(env, p.req)
      modifies if pointerStore == null then {} else {pointerStore}
      ensures Valid() && Advance(env, old(Seen()), p, o) == (Seen(), if failed == None then p.(written := 2)
              else Failed(p, failed.value))
    {
      failed := None;
      if pointerStore != null {
        PointerNotEmpty(env, p.req);
        var unstored := pointerStore.PutFactsPointer(pointer, o.up);
        if unstored.Some? {
          failed := Some(PointerFailed(unstored.value));
        }
      }
    }

    method BuildRecord(id: string, req: Request, pointer: Facts.FactsPointer) returns (r: Result<AgentAddr120,
        RegisterError>)
      requires pointer == PointerOf(env, req)
      ensures r == Prepare(env, id, req)
    {
      var decoded := env.parse(req.facts);
      if decoded.None? {
        return Err(FactsUndecodable);
      }
      var credentialSet := AgentFacts.CredentialSetHash128(env.sha, decoded.value.credentials);
      var payload := New(env.sha, id, req.ttlSeconds, req.flags, req.sequence, Facts.PointerHash(env.sha, pointer),
            credentialSet);
      if payload.Err? {
        return Err(RecordFailed(payload.error));
      }
      var record := Sign(env.scheme, payload.value, env.privateKey);
      r := if record.Err? then Err(RecordFailed(record.error)) else Ok(record.value);
    }

    method PutRecord(record: AgentAddr120, id: string, ghost p: Process, o: Oracle)
      returns (failed: Option<RegisterError>)
      requires Valid() && p.written == 2 && p.result == None && p.id == id && Prepare(env, id, p.req) == Ok(record)
      modifies indexStore
      ensures Valid() && Advance(env, old(Seen()), p, o) == (Seen(), if failed == None then p.(written := 3)
              else Failed(p, failed.value))
    {
      ghost var before := Seen();
      var refused := indexStore.Put(id, record, o.now, o.up);
      failed := if refused.Some? then Some(IndexFailed(refused.value)) else None;
      assert Seen() == before.(index := indexStore.Rows());
      IndexWrite(env, before, p, record, o, indexStore.Rows(), refused);
    }

    method Audit(req: Request, pointer: Facts.FactsPointer, record: AgentAddr120, id: string, ghost p: Process,
          o: Oracle)
      returns (r: Result<Response, RegisterError>)
      requires Valid() && p.req == req && p.id == id && p.written == 3 && p.result == None
      requires ValidateRequest(env, req) == Ok(id) && pointer == PointerOf(env, req)
      requires Prepare(env, id, req) == Ok(record)
      modifies if auditStore == null then {} else {auditStore}
      ensures Valid()
      ensures var after := Advance(env, old(Seen()), p, o); after.0 == Seen() && after.1.result == Some(r)
    {
      IdHash(env, req, id);
      ghost var before := Seen();
      r := RecordResponse(req, pointer, record, id, p, o);
      AuditWrite(env, before, p, record, Truncated(env.sha, id), o, Seen(), r);
    }

    /** Builds the response and records it (`auditRegistration`). */
    method RecordResponse(req: Request, pointer: Facts.FactsPointer, record: AgentAddr120, id: string,
        ghost p: Process, o: Oracle)
      returns (r: Result<Response, RegisterError>)
      requires Valid() && p.req == req && AgentIDHash(env.sha, id) == Ok(Truncated(env.sha, id))
      requires pointer == PointerOf(env, req)
      modifies if auditStore == null then {} else {auditStore}
      ensures Valid()
      ensures var after := AuditResponse(env, old(Seen()), p, ResponseOf(env, id, req, record), Truncated(env.sha, id),
                o);
              after.0 == Seen() && after.1.result == Some(r)
    {
      var payload := record.Payload();
      var resp := Response(id, pointer.Text(), Hex(payload.factsPtrHash128), Hex(payload.credentialSet128),
                           req.sequence, req.ttlSeconds, env.base64(record.Bytes()));
      if auditStore == null {
        return Ok(resp);
      }
      var hash := AgentIDHash(env.sha, resp.agentId);
      var failed := AppendEvent(RegisteredInput(env, req, resp, hash.value), o);
      r := if failed == None then Ok(resp) else Err(AuditFailed(failed.value));
    }

    method AppendEvent(input: EventInput, o: Oracle) returns (failed: Option<AuditError>)
      requires Valid() && auditStore != null
      modifies auditStore
      ensures Valid()
      ensures match Appended(env, old(auditStore.events), input, o)
              case Ok(e) => failed == None && auditStore.events == old(auditStore.events) + [e]
              case Err(e) => failed == Some(e) && auditStore.events == old(auditStore.events)
    {
      var appended := auditStore.Append(input, o.eventId, o.now, o.up);
      failed := if appended.Ok? then None else Some(appended.error);
    }
  }

  lemma IdHash(env: Env, req: Request, id: string)
    requires ValidateRequest(env, req) == Ok(id)
    ensures AgentIDHash(env.sha, id) == Ok(Truncated(env.sha, id))
  {
    NormalizeIdempotent(req.agentId);
  }

  lemma PointerNotEmpty(env: Env, req: Request)
    ensures PointerOf(env, req).scheme == Facts.FILESYSTEM_SCHEME && PointerOf(env, req).path != ""
  {
    Facts.ContentNamesPlain(env.sha, req.facts);
  }
}
