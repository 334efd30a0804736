/** Audit events, their hashes, and the chain the hashes form. */
module Audit {
  import opened Prelude
  import opened Text
  import opened Clock
  import opened Json
  import opened CanonicalJson
  import opened HashChain

  const EVENT_AGENT_REGISTERED := "agent.registered"
  const EVENT_RESOLVE_ALLOWED := "resolve.allowed"
  const EVENT_RESOLVE_DENIED := "resolve.denied"
  const EVENT_TRUST_DENIED := "trust.denied"
  const EVENT_REVOCATION_UPDATED := "credential.revocation.updated"
  const DECISION_ALLOWED := "allowed"
  const DECISION_DENIED := "denied"

  datatype Event = Event(
    eventId: string, eventType: string, agentId: string, agentHash: string, actorHash: string,
    decision: string, reason: string, eventJson: Raw,
    previousHash: string, eventHash: string, createdAt: UtcInstant)

  datatype EventInput = EventInput(
    eventType: string, agentId: string, agentHash: string, actorHash: string,
    decision: string, reason: string, eventJson: Raw)

  datatype AuditError =
    | UnsupportedEventType | UnsupportedDecision | InvalidEventJson | MissingEventId
    | InvalidLimit | InvalidOffset | AuditUnavailable

  predicate SupportedEventType(t: string) {
    t in [EVENT_AGENT_REGISTERED, EVENT_RESOLVE_ALLOWED, EVENT_RESOLVE_DENIED, EVENT_TRUST_DENIED,
          EVENT_REVOCATION_UPDATED]
  }

  predicate SupportedDecision(d: string) { d in [DECISION_ALLOWED, DECISION_DENIED] }

  function ValidateInput(input: EventInput): Option<AuditError> {
    if !SupportedEventType(input.eventType) then Some(UnsupportedEventType)
    else if !SupportedDecision(input.decision) then Some(UnsupportedDecision)
    else if input.eventJson.NoBytes? || input.eventJson.Malformed? then Some(InvalidEventJson)
    else None
  }

  // ----- what the hash covers -----

  function OmitEmpty(key: string, value: string): seq<Member> {
    if value == "" then [] else [Member(key, Str(value))]
  }

  function PayloadMembers(e: Event, canonical: Json): seq<Member> {
    [Member("eventId", Str(e.eventId)), Member("eventType", Str(e.eventType))]
    + (OmitEmpty("agentId", e.agentId) + (OmitEmpty("agentHash", e.agentHash) + (OmitEmpty("actorHash", e.actorHash)
    + PayloadTail(e, canonical))))
  }

  function PayloadTail(e: Event, canonical: Json): seq<Member> {
    [Member("decision", Str(e.decision))]
    + (OmitEmpty("reason", e.reason)
    + [Member("eventJSON", canonical), Member("createdAt", Str(Rfc3339(Stamp(e.createdAt, 0))))])
  }

  /** The text hashed for an event, behind the previous hash. */
  function CanonicalPayload(e: Event): Option<string> {
    match Canonical(e.eventJson)
    case None => None
    case Some(j) => Some(Print(Obj(PayloadMembers(e, j))))
  }

  function HashEvent(sha: Sha, previousHash: string, e: Event): Option<string> {
    match CanonicalPayload(e)
    case None => None
    case Some(payload) => Some(Hex(sha(previousHash + payload)))
  }

  /** A new event at the end of a chain.  `eventId` is the random id, if one could be drawn. */
  function NewEvent(sha: Sha, previousHash: string, input: EventInput, eventId: Option<string>,
        now: UtcInstant): Result<Event, AuditError> {
    match ValidateInput(input)
    case Some(e) => Err(e)
    case None => match Canonical(input.eventJson)
      case None => Err(InvalidEventJson)
      case Some(j) =>
        if eventId == None then Err(MissingEventId)
        else
          var e := Event(eventId.value, input.eventType, input.agentId, input.agentHash, input.actorHash,
                         input.decision, input.reason, Doc(j), previousHash, "", now);
          match HashEvent(sha, previousHash, e)
          case None => Err(InvalidEventJson)
          case Some(hash) => Ok(e.(eventHash := hash))
  }

  /** The part of an event its hash depends on. */
  datatype Covered = Covered(
    eventId: string, eventType: string, agentId: string, agentHash: string, actorHash: string,
    decision: string, reason: string, document: Option<Value>, createdAt: Instant)

  function DocumentOf(raw: Raw): Option<Value> {
    match raw
    case Malformed => None
    case Doc(j) => Some(Decode(j))
    case _ => Some(VObj(map[]))
  }

  function CoveredBy(e: Event): Covered {
    Covered(e.eventId, e.eventType, e.agentId, e.agentHash, e.actorHash, e.decision, e.reason, DocumentOf(e.eventJson),
          e.createdAt)
  }

  lemma CanonicalIsDocument(a: Raw, b: Raw)
    ensures Canonical(a).Some? <==> DocumentOf(a).Some?
    ensures Canonical(a) == Canonical(b) <==> DocumentOf(a) == DocumentOf(b)
    ensures Canonical(a).Some? ==>
              DocumentOf(Doc(Canonical(a).value)) == DocumentOf(a) && Canonical(Doc(Canonical(a).value)) == Canonical(a)
  {
    var empty := Obj([]);
    assert Decode(empty) == VObj(map[]);
    forall raw
      ensures DocumentOf(raw).Some? ==>
                var v := DocumentOf(raw).value; Canonical(raw) == Some(Encode(v)) && Decode(Encode(v)) == v
    {
      if DocumentOf(raw).Some? {
        DecodeEncode(DocumentOf(raw).value);
        assert SortedKeys({}) == [];
        if raw.Nil? || raw.NoBytes? {
          assert Encode(VObj(map[])) == Obj([]);
        }
      }
    }
  }

  /** The first string under `key`, or nothing: how a reader undoes `omitempty`. */
  function Field(members: seq<Member>, key: string): string {
    if members == [] then ""
    else if members[0].key == key && members[0].value.Str? then members[0].value.s
    else Field(members[1..], key)
  }

  lemma FieldOmitEmpty(key: string, value: string, rest: seq<Member>, sought: string)
    ensures Field(OmitEmpty(key, value) + rest, sought) == if key == sought && value != "" then value
            else Field(rest, sought)
  {
    if value == "" {
      assert OmitEmpty(key, value) + rest == rest;
    } else {
      assert (OmitEmpty(key, value) + rest)[1..] == rest;
    }
  }

  lemma FieldSkip(m: Member, rest: seq<Member>, sought: string)
    ensures Field([m] + rest, sought) == if m.key == sought && m.value.Str? then m.value.s else Field(rest, sought)
  {
    assert ([m] + rest)[1..] == rest;
  }

  lemma SkipTwo(a: Member, b: Member, rest: seq<Member>, sought: string)
    requires (a.key != sought || !a.value.Str?) && (b.key != sought || !b.value.Str?)
    ensures Field([a, b] + rest, sought) == Field(rest, sought)
  {
    assert [a, b] + rest == [a] + ([b] + rest);
    FieldSkip(a, [b] + rest, sought);
    FieldSkip(b, rest, sought);
  }

  lemma TailFields(e: Event, j: Json, sought: string)
    requires sought in ["agentId", "agentHash", "actorHash", "decision", "reason"]
    ensures Field(PayloadTail(e, j), sought) == if sought == "decision" then e.decision
            else if sought == "reason" then e.reason else ""
  {
    var json, created := Member("eventJSON", j), Member("createdAt", Str(Rfc3339(Stamp(e.createdAt, 0))));
    assert sought != "eventJSON" && sought != "createdAt";
    ReasonField(e.reason, json, created, sought);
    DecisionField(e.decision, OmitEmpty("reason", e.reason) + [json, created], sought);
  }

  lemma DecisionField(decision: string, rest: seq<Member>, sought: string)
    ensures Field([Member("decision", Str(decision))] + rest, sought) == if sought == "decision" then decision
            else Field(rest, sought)
  {
    FieldSkip(Member("decision", Str(decision)), rest, sought);
  }

  lemma ReasonField(reason: string, json: Member, created: Member, sought: string)
    requires json.key != sought && created.key != sought
    ensures Field(OmitEmpty("reason", reason) + [json, created], sought) == if sought == "reason" then reason else ""
  {
    FieldOmitEmpty("reason", reason, [json, created], sought);
    SkipTwo(json, created, [], sought);
    assert [json, created] + [] == [json, created];
  }

  /** The part of the payload that names the agent, and what follows. */
  function AgentMembers(e: Event, canonical: Json): seq<Member> {
    OmitEmpty("agentId", e.agentId)
    + (OmitEmpty("agentHash", e.agentHash) + (OmitEmpty("actorHash", e.actorHash) + PayloadTail(e, canonical)))
  }

  lemma AgentFields(e: Event, j: Json, sought: string)
    ensures Field(AgentMembers(e, j), sought) ==
            if sought == "agentId" && e.agentId != "" then e.agentId
            else if sought == "agentHash" && e.agentHash != "" then e.agentHash
            else if sought == "actorHash" && e.actorHash != "" then e.actorHash
            else Field(PayloadTail(e, j), sought)
  {
    var actor := OmitEmpty("actorHash", e.actorHash) + PayloadTail(e, j);
    FieldOmitEmpty("agentId", e.agentId, OmitEmpty("agentHash", e.agentHash) + actor, sought);
    FieldOmitEmpty("agentHash", e.agentHash, actor, sought);
    FieldOmitEmpty("actorHash", e.actorHash, PayloadTail(e, j), sought);
  }

  lemma HeadFields(e: Event, j: Json, sought: string)
    requires sought != "eventId" && sought != "eventType"
    ensures Field(PayloadMembers(e, j), sought) == Field(AgentMembers(e, j), sought)
  {
    SkipTwo(Member("eventId", Str(e.eventId)), Member("eventType", Str(e.eventType)), AgentMembers(e, j), sought);
  }

  lemma PayloadFields(e: Event, j: Json, sought: string)
    requires sought in ["agentId", "agentHash", "actorHash", "decision", "reason"]
    ensures Field(PayloadMembers(e, j), sought) ==
            if sought == "agentId" then e.agentId
            else if sought == "agentHash" then e.agentHash
            else if sought == "actorHash" then e.actorHash
            else Field(PayloadTail(e, j), sought)
  {
    HeadFields(e, j, sought);
    AgentFields(e, j, sought);
    TailFields(e, j, sought);
  }

  lemma SameField(e: Event, f: Event, j: Json, k: Json, sought: string)
    requires sought in ["agentId", "agentHash", "actorHash", "decision", "reason"]
    requires PayloadMembers(e, j) == PayloadMembers(f, k)
    ensures sought == "agentId" ==> e.agentId == f.agentId
    ensures sought == "agentHash" ==> e.agentHash == f.agentHash
    ensures sought == "actorHash" ==> e.actorHash == f.actorHash
    ensures sought == "decision" ==> e.decision == f.decision
    ensures sought == "reason" ==> e.reason == f.reason
  {
    PayloadFields(e, j, sought);
    PayloadFields(f, k, sought);
    TailFields(e, j, sought);
    TailFields(f, k, sought);
  }

  lemma PayloadEnds(e: Event, j: Json)
    ensures var m := PayloadMembers(e, j);
            && |m| >= 4 && m[0].value == Str(e.eventId) && m[1].value == Str(e.eventType)
            && m[|m| - 2].value == j && m[|m| - 1].value == Str(Rfc3339(Stamp(e.createdAt, 0)))
  {}

  lemma PayloadMembersInjective(e: Event, f: Event, j: Json, k: Json)
    requires PayloadMembers(e, j) == PayloadMembers(f, k)
    ensures j == k
    ensures CoveredBy(e).(document := None) == CoveredBy(f).(document := None)
  {
    PayloadEnds(e, j);
    PayloadEnds(f, k);
    Rfc3339Injective(Stamp(e.createdAt, 0), Stamp(f.createdAt, 0));
    SameField(e, f, j, k, "agentId");
    SameField(e, f, j, k, "agentHash");
    SameField(e, f, j, k, "actorHash");
    SameField(e, f, j, k, "decision");
    SameField(e, f, j, k, "reason");
  }

  /** Hashed payloads are equal exactly when everything the hash should cover is. */
  lemma PayloadIsCovered(e: Event, f: Event)
    requires CanonicalPayload(e).Some? && CanonicalPayload(f).Some?
    ensures CanonicalPayload(e) == CanonicalPayload(f) <==> CoveredBy(e) == CoveredBy(f)
  {
    CanonicalIsDocument(e.eventJson, f.eventJson);
    var j, k := Canonical(e.eventJson).value, Canonical(f.eventJson).value;
    PrintInjective(Obj(PayloadMembers(e, j)), Obj(PayloadMembers(f, k)));
    if CanonicalPayload(e) == CanonicalPayload(f) {
      PayloadMembersInjective(e, f, j, k);
    }
  }

  /** A payload starts with a brace, so a hash in front of it can be told apart from it. */
  lemma PayloadLead(e: Event)
    requires CanonicalPayload(e).Some?
    ensures CanonicalPayload(e).value != "" && CanonicalPayload(e).value[0] == '{'
  {
    PrintLead(Obj(PayloadMembers(e, Canonical(e.eventJson).value)), "");
  }

  // ----- the chain -----

  function LinkOf(e: Event): Link { Link(e.previousHash, CanonicalPayload(e), e.eventHash) }

  function Links(events: seq<Event>): seq<Link> { MapSeq(LinkOf, events) }

  /** `verifyEvents`. */
  method VerifyEvents(sha: Sha, events: seq<Event>) returns (r: Option<Break>)
    ensures Verdict(sha, Links(events), r)
  {
    r := VerifyChain(sha, LinkOf, events);
  }

  lemma LinksSnoc(events: seq<Event>, e: Event)
    ensures Links(events + [e]) == Links(events) + [LinkOf(e)]
  {
    assert (events + [e])[..|events|] == events;
  }

  lemma NewEventLink(sha: Sha, previousHash: string, input: EventInput, eventId: Option<string>, now: UtcInstant)
    requires NewEvent(sha, previousHash, input, eventId, now).Ok?
    ensures var l := LinkOf(NewEvent(sha, previousHash, input, eventId, now).value);
            l.previousHash == previousHash && HashLink(sha, previousHash, l.payload) == Some(l.hash)
  {
    var e := NewEvent(sha, previousHash, input, eventId, now).value;
    assert CanonicalPayload(e) == CanonicalPayload(e.(eventHash := ""));
  }

  /** Appending keeps the chain valid. */
  lemma AppendKeepsChain(sha: Sha, events: seq<Event>, input: EventInput, eventId: Option<string>, now: UtcInstant)
    requires ChainValid(sha, Links(events))
    requires NewEvent(sha, Head(Links(events)), input, eventId, now).Ok?
    ensures ChainValid(sha, Links(events + [NewEvent(sha, Head(Links(events)), input, eventId, now).value]))
  {
    var e := NewEvent(sha, Head(Links(events)), input, eventId, now).value;
    NewEventLink(sha, Head(Links(events)), input, eventId, now);
    LinksSnoc(events, e);
    ChainSnoc(sha, Links(events), LinkOf(e));
  }

  lemma LinksFramed(events: seq<Event>)
    ensures Framed(Links(events))
  {
    forall i | 0 <= i < |events| && CanonicalPayload(events[i]).Some?
      ensures CanonicalPayload(events[i]).value != "" && !IsHex(CanonicalPayload(events[i]).value[0])
    {
      PayloadLead(events[i]);
    }
  }

  ghost predicate SameRecord(a: seq<Event>, b: seq<Event>) {
    |a| == |b| && forall i :: 0 <= i < |a| ==> CoveredBy(a[i]) == CoveredBy(b[i])
  }

  /** Two logs that verify and end in the same hash record the same events, field by field, or
      two of the texts hashed along them collide. */
  lemma HeadCommitsToLog(sha: Sha, a: seq<Event>, b: seq<Event>)
    requires ChainValid(sha, Links(a)) && ChainValid(sha, Links(b)) && Head(Links(a)) == Head(Links(b))
    ensures SameRecord(a, b) || exists i, j :: CollisionAt(sha, Links(a), Links(b), i, j)
  {
    LinksFramed(a);
    LinksFramed(b);
    HeadCommits(sha, Links(a), Links(b));
    if SamePayloads(Links(a), Links(b)) {
      forall i | 0 <= i < |a| ensures CoveredBy(a[i]) == CoveredBy(b[i]) {
        assert LinkHolds(sha, Links(a), i) && Links(a)[i].payload == Links(b)[i].payload;
        PayloadIsCovered(a[i], b[i]);
      }
    }
  }
}
