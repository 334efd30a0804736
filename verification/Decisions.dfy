/** What a resolve allows, said without its pipeline. */
module Decisions {
  import opened Prelude
  import opened Clock
  import opened AgentAddr
  import opened AgentFacts
  import opened World
  import opened System
  import Replay
  import Resolver
  import Revocation
  import Trust

  /** The response says what it must about the request, the record and the endpoint chosen. */
  ghost predicate Describes(resp: Resolver.Response, req: Resolver.Request, id: string, e: Entry,
        endpoints: seq<Endpoint>, now: Instant) {
    && resp.agentId == id && resp.cache.sourceSequence == e.sequence
    && (exists i: nat :: Resolver.IsPreferred(endpoints, i) && endpoints[i] == resp.endpoint)
    && (forall t ::
          Resolver.Cacheable(t, resp.endpoint, Resolver.ExpiresAt(e.createdAt, e.updatedAt, e.ttlSeconds), now) <==>
          t <= resp.cache.ttlSeconds)
    && resp.cache.expiresAt == now + resp.cache.ttlSeconds * NANOS_PER_SECOND
    && resp.trustDecision == (if req.requiredCapability == "" then Resolver.TRUST_UNVERIFIED
         else Resolver.TRUST_VERIFIED)
    && resp.proof == Resolver.ProofBundle(true, true, true, true, Resolver.CREDENTIAL_STATUS_NOT_IMPLEMENTED,
           req.requiredCapability != "")
  }

  /** The capability asked for, if any, is granted by one of the credentials. */
  ghost predicate Trusted(env: Env, revocations: Revocation.Records, req: Resolver.Request, id: string,
        credentials: seq<Credential>, now: Instant) {
    req.requiredCapability == ""
    || (env.trust.Some?
        && exists c :: c in credentials
                       && Trust.Grants(env.trust.value, revocations, c, id, req.requiredCapability, now))
  }

  /** The agent's entry has a second to live, its facts are valid, the capability is granted, and
      the response describes them. */
  ghost predicate Allows(env: Env, e: Entry, revocations: Revocation.Records, req: Resolver.Request, id: string,
        now: Instant, resp: Resolver.Response) {
    && Resolver.RecordTime(e.createdAt, e.updatedAt) != ZERO_TIME
    && now + NANOS_PER_SECOND <= Resolver.ExpiresAt(e.createdAt, e.updatedAt, e.ttlSeconds)
    && env.parse(e.facts).Some?
    && var facts := env.parse(e.facts).value;
       && IsValid(env.httpsUrl, facts, id, req.requiredCapability, now)
       && Trusted(env, revocations, req, id, facts.credentials, now)
       && Describes(resp, req, id, e, facts.endpoints, now)
  }

  lemma FreshExactly(createdAt: Instant, updatedAt: Instant, ttlSeconds: uint16, now: Instant)
    ensures Resolver.Freshness(createdAt, updatedAt, ttlSeconds, now).Some? <==>
            Resolver.RecordTime(createdAt, updatedAt) != ZERO_TIME
            && now + NANOS_PER_SECOND <= Resolver.ExpiresAt(createdAt, updatedAt, ttlSeconds)
  {
    Resolver.WholeSeconds(Resolver.ExpiresAt(createdAt, updatedAt, ttlSeconds) - now, 1);
    Resolver.WholeSeconds(Resolver.MAX_DURATION, 1);
  }

  lemma TrustsExactly(env: Env, revocations: Revocation.Records, req: Resolver.Request, id: string, facts: AgentFacts,
      now: Instant)
    ensures Resolver.Trusts(env, revocations, req, id, facts, now) == None <==>
              Trusted(env, revocations, req, id, facts.credentials, now)
  {
    if env.trust.Some? {
      Trust.AcceptedIffGranted(env.trust.value, revocations, facts.credentials, id, req.requiredCapability, now);
    }
  }

  /** There is one response that describes, and it is the answer given. */
  lemma AnswerDescribes(req: Resolver.Request, id: string, e: Entry, endpoints: seq<Endpoint>, now: Instant,
      resp: Resolver.Response)
    requires Resolver.Freshness(e.createdAt, e.updatedAt, e.ttlSeconds, now).Some?
    requires Resolver.SelectEndpoint(endpoints).Some?
    ensures Describes(resp, req, id, e, endpoints, now) <==>
            resp == Resolver.Answer(req, id, e.sequence,
                  Resolver.Freshness(e.createdAt, e.updatedAt, e.ttlSeconds, now).value,
                                    Resolver.SelectEndpoint(endpoints).value, now)
  {
    var endpoint := Resolver.SelectEndpoint(endpoints).value;
    var answer := Resolver.Answer(req, id, e.sequence,
          Resolver.Freshness(e.createdAt, e.updatedAt, e.ttlSeconds, now).value, endpoint, now);
    Resolver.SelectIsPreferred(endpoints, endpoint);
    Resolver.SelectIsPreferred(endpoints, resp.endpoint);
    forall t
      ensures Resolver.Cacheable(t, endpoint, Resolver.ExpiresAt(e.createdAt, e.updatedAt, e.ttlSeconds), now) <==>
                t <= answer.cache.ttlSeconds
    {
      Resolver.CacheIsLargest(endpoint, e.createdAt, e.updatedAt, e.ttlSeconds, now, t);
    }
    if Describes(resp, req, id, e, endpoints, now) {
      assert resp.endpoint == endpoint;
      SameBound(resp.cache.ttlSeconds, answer.cache.ttlSeconds, endpoint,
            Resolver.ExpiresAt(e.createdAt, e.updatedAt, e.ttlSeconds), now);
    }
  }

  lemma SameBound(a: int, b: int, endpoint: Endpoint, expiresAt: Instant, now: Instant)
    requires forall t :: Resolver.Cacheable(t, endpoint, expiresAt, now) <==> t <= a
    requires forall t :: Resolver.Cacheable(t, endpoint, expiresAt, now) <==> t <= b
    ensures a == b
  {
    assert Resolver.Cacheable(a, endpoint, expiresAt, now) && Resolver.Cacheable(b, endpoint, expiresAt, now);
  }

  /** Looking the plain map up allows a response exactly when the agent has an entry that allows
      it; in particular at most one response is ever allowed. */
  lemma PlainAllowsExactly(env: Env, m: PlainMap, revocations: Revocation.Records, req: Resolver.Request, now: Instant,
      resp: Resolver.Response)
    ensures PlainOutcome(env, m, revocations, req, now) == Ok(resp) <==>
            && NormalizeAgentID(req.agentId).Ok?
            && var id := NormalizeAgentID(req.agentId).value;
               id in m && Allows(env, m[id], revocations, req, id, now, resp)
  {
    if NormalizeAgentID(req.agentId).Ok? && NormalizeAgentID(req.agentId).value in m {
      var id := NormalizeAgentID(req.agentId).value;
      EntryAllowsExactly(env, m, revocations, req, id, now, resp);
    }
  }

  lemma EntryAllowsExactly(env: Env, m: PlainMap, revocations: Revocation.Records, req: Resolver.Request, id: string,
      now: Instant, resp: Resolver.Response)
    requires NormalizeAgentID(req.agentId) == Ok(id) && id in m
    ensures PlainOutcome(env, m, revocations, req, now) == Ok(resp) <==>
              Allows(env, m[id], revocations, req, id, now, resp)
  {
    var e := m[id];
    FreshExactly(e.createdAt, e.updatedAt, e.ttlSeconds, now);
    var left := Resolver.Freshness(e.createdAt, e.updatedAt, e.ttlSeconds, now);
    if left.Some? && env.parse(e.facts).Some? {
      var facts := env.parse(e.facts).value;
      TrustsExactly(env, revocations, req, id, facts, now);
      ValidateExactly(env.httpsUrl, facts, id, req.requiredCapability, now);
      if Validate(env.httpsUrl, facts, id, req.requiredCapability, now) == None {
        Resolver.ValidFactsHaveEndpoint(env, facts, id, req.requiredCapability, now);
        AnswerDescribes(req, id, e, facts.endpoints, now, resp);
      }
    }
  }

  /** The registry itself: in every run `Resolve` allows exactly what the agent's highest-sequence
      registration when the index was read, the statuses read last and the clock allow, unless two
      texts collide. */
  lemma ResolveAllowsExactly(env: Env, text: ErrorText, actions: seq<Action>, at: Moments, req: Resolver.Request,
      now: Instant, resp: Resolver.Response)
    requires KeysMatch(env) && env.pointerStore && CollisionFree(env.sha, Texts(env, actions) + IdTexts(req.agentId))
    requires InOrder(at, actions)
    ensures var attempts := Run(env, text, actions[..at.index]).attempts;
            var seen := ReadAcross(env, text, actions, at);
            Resolver.Outcome(env, seen, Resolver.ALL_UP, req, now) == Ok(resp) <==>
            && NormalizeAgentID(req.agentId).Ok?
            && var id := NormalizeAgentID(req.agentId).value;
               id in Plain(attempts) && HasBest(attempts, id, Plain(attempts)[id])
               && Allows(env, Plain(attempts)[id], seen.revocations, req, id, now, resp)
  {
    var attempts := Run(env, text, actions[..at.index]).attempts;
    ResolveIsPlainLookup(env, text, actions, at, req, now);
    PlainAllowsExactly(env, Plain(attempts), ReadAcross(env, text, actions, at).revocations, req, now, resp);
    if NormalizeAgentID(req.agentId).Ok? {
      PlainIsBest(attempts, NormalizeAgentID(req.agentId).value);
    }
  }

  // ----- revocation over a run -----

  /** The status writes that reached the table during a run, in order. */
  function StatusWrites(env: Env, text: ErrorText, actions: seq<Action>): seq<Revocation.Write> {
    if actions == [] then []
    else
      var front, a := actions[..|actions| - 1], actions[|actions| - 1];
      var earlier := StatusWrites(env, text, front);
      if Replay.Writes(Run(env, text, front), a) then earlier + [a.w] else earlier
  }

  lemma AppliedSnoc(writes: seq<Revocation.Write>, w: Revocation.Write)
    ensures Revocation.AppliedAll(writes + [w]) == Revocation.Applied(Revocation.AppliedAll(writes), w)
  {
    assert (writes + [w])[..|writes|] == writes;
  }

  /** Whatever else ran, the status table is what the writes that reached it leave one after the
      other. */
  lemma {:induction false} TableIsWrites(env: Env, text: ErrorText, actions: seq<Action>)
    ensures Run(env, text, actions).stores.revocations == Revocation.AppliedAll(StatusWrites(env, text, actions))
  {
    if actions != [] {
      var front, a := actions[..|actions| - 1], actions[|actions| - 1];
      TableIsWrites(env, text, front);
      Replay.StepStatusEffect(env, text, Run(env, text, front), a);
      if a.WriteStatus? { AppliedSnoc(StatusWrites(env, text, front), a.w); }
    }
  }

  /** When a resolve that asks for a capability is allowed, the agent's facts hold a credential that
      meets every term and whose last status write before the statuses were read, if any, did not
      revoke it. */
  lemma AllowedHasWitness(env: Env, text: ErrorText, actions: seq<Action>, at: Moments, req: Resolver.Request,
        now: Instant)
    requires KeysMatch(env) && env.pointerStore && CollisionFree(env.sha, Texts(env, actions) + IdTexts(req.agentId))
    requires InOrder(at, actions) && req.requiredCapability != "" && env.trust.Some? && env.trust.value.checksRevocation
    requires Resolver.Outcome(env, ReadAcross(env, text, actions, at), Resolver.ALL_UP, req, now).Ok?
    ensures var m, seen := Plain(Run(env, text, actions[..at.index]).attempts), ReadAcross(env, text, actions, at);
            && NormalizeAgentID(req.agentId).Ok?
            && var id := NormalizeAgentID(req.agentId).value;
               && id in m && env.parse(m[id].facts).Some?
               && exists c :: c in env.parse(m[id].facts).value.credentials
                              && Trust.Grants(env.trust.value, seen.revocations, c, id, req.requiredCapability, now)
                              && Revocation.NotLastRevoked(StatusWrites(env, text, actions[..at.statuses]),
                                     Revocation.Key(c.issuer, c.id))
  {
    var m, seen := Plain(Run(env, text, actions[..at.index]).attempts), ReadAcross(env, text, actions, at);
    var resp := Resolver.Outcome(env, seen, Resolver.ALL_UP, req, now).value;
    ResolveAllowsExactly(env, text, actions, at, req, now, resp);
    var id := NormalizeAgentID(req.agentId).value;
    var facts := env.parse(m[id].facts).value;
    TableIsWrites(env, text, actions[..at.statuses]);
    WitnessNotRevoked(env.trust.value, StatusWrites(env, text, actions[..at.statuses]), facts.credentials, id,
          req.requiredCapability, now);
  }

  lemma WitnessNotRevoked(v: Trust.Verifier, writes: seq<Revocation.Write>, credentials: seq<Credential>, id: string,
      capability: string, now: Instant)
    requires v.checksRevocation
    requires exists c :: c in credentials && Trust.Grants(v, Revocation.AppliedAll(writes), c, id, capability, now)
    ensures exists c :: c in credentials && Trust.Grants(v, Revocation.AppliedAll(writes), c, id, capability, now)
                        && Revocation.NotLastRevoked(writes, Revocation.Key(c.issuer, c.id))
  {
    var c :| c in credentials && Trust.Grants(v, Revocation.AppliedAll(writes), c, id, capability, now);
    Revocation.NotRevoked(writes, Revocation.Key(c.issuer, c.id));
  }
}
