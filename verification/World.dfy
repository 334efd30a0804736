/** The five stores as one value, and the foreign calls the services make. */
module World {
  import opened Prelude
  import opened Clock
  import opened AgentAddr
  import opened AgentFacts
  import opened HashChain
  import opened Audit
  import CanonicalJson
  import Facts
  import Index
  import Revocation
  import Trust

  datatype Stores = Stores(
    files: Facts.Files,
    pointers: Facts.Pointers,
    index: Index.Tables,
    revocations: Revocation.Records,
    events: seq<Event>)

  const NO_DATA := Stores(map[], map[], Index.EMPTY, map[], [])

  /** `validJson` and `parse` are `json.Valid` and `json.Unmarshal` into agent facts;
      `pointerStore` and `auditStore` say whether those optional stores are configured. */
  datatype Env = Env(
    sha: Sha,
    scheme: Ed25519,
    privateKey: seq<byte>,
    publicKey: seq<byte>,
    validJson: string -> bool,
    parse: string -> Option<AgentFacts>,
    httpsUrl: string -> bool,
    base64: seq<byte> -> string,
    trust: Option<Trust.Verifier>,
    pointerStore: bool,
    auditStore: bool)

  /** What `NewService` insists on. */
  predicate Configured(env: Env) {
    |env.privateKey| == PRIVATE_KEY_SIZE && |env.publicKey| == PUBLIC_KEY_SIZE
  }

  ghost predicate KeysMatch(env: Env) {
    Configured(env) && Correct(env.scheme) && env.publicKey == env.scheme.publicOf(env.privateKey)
  }

  /** What one write meets: whether its store takes it, the clock, and a random id. */
  datatype Oracle = Oracle(up: bool, now: UtcInstant, eventId: Option<string>)

  /** The event an append adds to a log. */
  function Appended(env: Env, events: seq<Event>, input: EventInput, o: Oracle): Result<Event, AuditError> {
    if o.up then NewEvent(env.sha, Head(Links(events)), input, o.eventId, o.now) else Err(AuditUnavailable)
  }

  /** An append that can only be stopped by its store or by the random source. */
  lemma AppendedMeaning(env: Env, events: seq<Event>, input: EventInput, o: Oracle)
    requires ValidateInput(input) == None && input.eventJson.Doc?
    ensures Appended(env, events, input, o).Ok? <==> o.up && o.eventId.Some?
    ensures Appended(env, events, input, o).Ok? ==>
              var e := Appended(env, events, input, o).value;
              && e.eventType == input.eventType && e.agentId == input.agentId && e.agentHash == input.agentHash
              && e.decision == input.decision && e.reason == input.reason
              && DocumentOf(e.eventJson) == DocumentOf(input.eventJson)
    ensures Appended(env, events, input, o).Ok? && ChainValid(env.sha, Links(events)) ==>
              ChainValid(env.sha, Links(events + [Appended(env, events, input, o).value]))
  {
    CanonicalIsDocument(input.eventJson, input.eventJson);
    if o.up && o.eventId.Some? {
      var j := CanonicalJson.Canonical(input.eventJson).value;
      assert CanonicalJson.Canonical(CanonicalJson.Doc(j)) == Some(j);
      if ChainValid(env.sha, Links(events)) {
        AppendKeepsChain(env.sha, events, input, o.eventId, o.now);
      }
    }
  }

}
