/** Agent facts documents, their validation, and the credential-set commitment. */
module AgentFacts {
  import opened Prelude
  import opened Text
  import opened Clock
  import opened Json
  import opened AgentAddr

  const SCHEMA_VERSION_V0 := "nanda.agentfacts.v0"
  const AGENT_CAPABILITY_CREDENTIAL := "AgentCapabilityCredential"
  const ENDPOINT_STATIC := "static"
  const ENDPOINT_ROTATING := "rotating"
  const ENDPOINT_ADAPTIVE := "adaptiveResolver"

  /** `capabilities` is `None` for a nil slice and `Some([])` for an empty one. */
  datatype Credential = Credential(
    id: string,
    kind: string,
    issuer: string,
    subject: string,
    capabilities: Option<seq<string>>,
    validFrom: Time,
    validUntil: Time,
    signature: string)
  {
    function Granted(): seq<string> {
      if capabilities.Some? then capabilities.value else []
    }
  }

  datatype Endpoint = Endpoint(id: string, kind: string, url: string, protocol: string, ttlSeconds: uint16)

  datatype AgentFacts = AgentFacts(
    schemaVersion: string,
    id: string,
    controller: string,
    validFrom: Time,
    validUntil: Time,
    capabilities: seq<string>,
    credentials: seq<Credential>,
    endpoints: seq<Endpoint>)

  // ----- validation -----

  datatype EndpointError =
    EmptyEndpointId | UnsupportedEndpointType | UnsupportedProtocol | InvalidEndpointUrl | ZeroEndpointTtl

  datatype FactsError =
    | InvalidSchemaVersion
    | InvalidFactsId(e: IdError)
    | AgentIdMismatch
    | EmptyController
    | FactsNotYetValid
    | FactsExpired
    | FactsMissingCapability
    | NoEndpoints
    | InvalidEndpoint(index: nat, why: EndpointError)

  predicate SupportedEndpointType(kind: string) {
    kind in [ENDPOINT_STATIC, ENDPOINT_ROTATING, ENDPOINT_ADAPTIVE]
  }

  /** `httpsUrl` stands for parsing as a request URI with scheme https and a host. */
  function ValidateEndpoint(httpsUrl: string -> bool, e: Endpoint): Option<EndpointError> {
    if TrimSpace(e.id) == "" then Some(EmptyEndpointId)
    else if !SupportedEndpointType(e.kind) then Some(UnsupportedEndpointType)
    else if e.protocol != "https" then Some(UnsupportedProtocol)
    else if !httpsUrl(e.url) then Some(InvalidEndpointUrl)
    else if e.ttlSeconds == 0 then Some(ZeroEndpointTtl)
    else None
  }

  function ValidateEndpoints(httpsUrl: string -> bool, endpoints: seq<Endpoint>, from: nat): (r: Option<FactsError>)
    requires from <= |endpoints|
    ensures r == None <==> forall i :: from <= i < |endpoints| ==> ValidateEndpoint(httpsUrl, endpoints[i]) == None
    decreases |endpoints| - from
  {
    if from == |endpoints| then None
    else match ValidateEndpoint(httpsUrl, endpoints[from])
      case Some(e) => Some(InvalidEndpoint(from, e))
      case None => ValidateEndpoints(httpsUrl, endpoints, from + 1)
  }

  function Validate(httpsUrl: string -> bool, facts: AgentFacts, requestedAgentId: string, requiredCapability: string,
      now: Instant)
    : Option<FactsError>
  {
    if facts.schemaVersion != SCHEMA_VERSION_V0 then Some(InvalidSchemaVersion)
    else match (NormalizeAgentID(requestedAgentId), NormalizeAgentID(facts.id))
      case (Err(e), _) => Some(InvalidFactsId(e))
      case (_, Err(e)) => Some(InvalidFactsId(e))
      case (Ok(requested), Ok(id)) =>
        if id != requested then Some(AgentIdMismatch)
        else if TrimSpace(facts.controller) == "" then Some(EmptyController)
        else if facts.validFrom.nanos > now then Some(FactsNotYetValid)
        else if facts.validUntil.nanos <= now then Some(FactsExpired)
        else if requiredCapability != "" && requiredCapability !in facts.capabilities then Some(FactsMissingCapability)
        else if facts.endpoints == [] then Some(NoEndpoints)
        else ValidateEndpoints(httpsUrl, facts.endpoints, 0)
  }

  predicate IsServing(httpsUrl: string -> bool, e: Endpoint) {
    TrimSpace(e.id) != "" && SupportedEndpointType(e.kind) && e.protocol == "https" && httpsUrl(e.url)
        && e.ttlSeconds > 0
  }

  /** The facts are the requested agent's, in force at `now`, grant the capability asked for, and
      list endpoints that all serve. */
  ghost predicate IsValid(httpsUrl: string -> bool, facts: AgentFacts, requestedAgentId: string,
        requiredCapability: string, now: Instant) {
    && facts.schemaVersion == SCHEMA_VERSION_V0
    && NormalizeAgentID(requestedAgentId).Ok? && NormalizeAgentID(facts.id) == NormalizeAgentID(requestedAgentId)
    && TrimSpace(facts.controller) != ""
    && facts.validFrom.nanos <= now < facts.validUntil.nanos
    && (requiredCapability != "" ==> requiredCapability in facts.capabilities)
    && facts.endpoints != [] && forall e :: e in facts.endpoints ==> IsServing(httpsUrl, e)
  }

  /** Validation passes exactly for valid facts, and an endpoint error names the first endpoint that
      does not serve. */
  lemma ValidateExactly(httpsUrl: string -> bool, facts: AgentFacts, requestedAgentId: string,
      requiredCapability: string, now: Instant)
    ensures var r := Validate(httpsUrl, facts, requestedAgentId, requiredCapability, now);
            && (r == None <==> IsValid(httpsUrl, facts, requestedAgentId, requiredCapability, now))
            && (r.Some? && r.value.InvalidEndpoint? ==>
                  && r.value.index < |facts.endpoints| && !IsServing(httpsUrl, facts.endpoints[r.value.index])
                  && forall i :: 0 <= i < r.value.index ==> IsServing(httpsUrl, facts.endpoints[i]))
  {
    FirstNotServing(httpsUrl, facts.endpoints, 0);
    assert (forall e :: e in facts.endpoints ==> IsServing(httpsUrl, e)) <==>
           (forall i :: 0 <= i < |facts.endpoints| ==> IsServing(httpsUrl, facts.endpoints[i]));
  }

  lemma ServingExactly(httpsUrl: string -> bool, e: Endpoint)
    ensures ValidateEndpoint(httpsUrl, e) == None <==> IsServing(httpsUrl, e)
  {}

  /** The first endpoint from `from` on that does not validate is the one `e` names. */
  ghost predicate IsFirstInvalid(httpsUrl: string -> bool, endpoints: seq<Endpoint>, from: nat, e: FactsError) {
    && e.InvalidEndpoint? && from <= e.index < |endpoints| && ValidateEndpoint(httpsUrl, endpoints[e.index]) != None
    && forall i :: from <= i < e.index ==> ValidateEndpoint(httpsUrl, endpoints[i]) == None
  }

  lemma {:induction false} FirstInvalid(httpsUrl: string -> bool, endpoints: seq<Endpoint>, from: nat)
    requires from <= |endpoints|
    ensures ValidateEndpoints(httpsUrl, endpoints, from).Some? ==>
              IsFirstInvalid(httpsUrl, endpoints, from, ValidateEndpoints(httpsUrl, endpoints, from).value)
    decreases |endpoints| - from
  {
    if from < |endpoints| {
      FirstInvalid(httpsUrl, endpoints, from + 1);
    }
  }

  lemma FirstNotServing(httpsUrl: string -> bool, endpoints: seq<Endpoint>, from: nat)
    requires from <= |endpoints|
    ensures match ValidateEndpoints(httpsUrl, endpoints, from)
            case None => forall i :: from <= i < |endpoints| ==> IsServing(httpsUrl, endpoints[i])
            case Some(e) => e.InvalidEndpoint? && from <= e.index < |endpoints|
                            && !IsServing(httpsUrl, endpoints[e.index])
                            && forall i :: from <= i < e.index ==> IsServing(httpsUrl, endpoints[i])
  {
    FirstInvalid(httpsUrl, endpoints, from);
    forall i | 0 <= i < |endpoints|
      ensures ValidateEndpoint(httpsUrl, endpoints[i]) == None <==> IsServing(httpsUrl, endpoints[i])
    {
      ServingExactly(httpsUrl, endpoints[i]);
    }
  }

  // ----- the credential-set commitment -----

  function Strings(ss: seq<string>): seq<Json> { seq(|ss|, i requires 0 <= i < |ss| => Str(ss[i])) }

  /** A credential as its JSON object.  A copied empty slice is nil and prints as null. */
  function CredentialTree(c: Credential, capabilities: seq<string>): Json {
    Obj([
      Member("id", Str(c.id)),
      Member("type", Str(c.kind)),
      Member("issuer", Str(c.issuer)),
      Member("subject", Str(c.subject)),
      Member("capabilities", if capabilities == [] then Null else Arr(Strings(capabilities))),
      Member("validFrom", Str(Rfc3339(c.validFrom))),
      Member("validUntil", Str(Rfc3339(c.validUntil))),
      Member("signature", Str(c.signature))
    ])
  }

  function CanonicalCredential(c: Credential): Json {
    CredentialTree(c, SortBy(Less, c.Granted()))
  }

  function CanonicalCredentials(cs: seq<Credential>): seq<Json> {
    MapSeq(CanonicalCredential, cs)
  }

  predicate TextLess(a: Json, b: Json) { Less(Print(a), Print(b)) }

  /** The bytes the commitment hashes. */
  function CredentialSetText(cs: seq<Credential>): string {
    if cs == [] then "" else Print(Arr(SortBy(TextLess, CanonicalCredentials(cs))))
  }

  function CredentialSetHash(sha: Sha, cs: seq<Credential>): Hash128 {
    Truncated(sha, CredentialSetText(cs))
  }

  method Canonicalize(c: Credential) returns (tree: Json)
    ensures tree == CanonicalCredential(c)
  {
    var granted := c.Granted();
    var capabilities := new string[|granted|](j requires 0 <= j < |granted| => granted[j]);
    assert capabilities[..] == granted;
    SortInPlace(Less, capabilities);
    tree := CredentialTree(c, capabilities[..]);
  }

  method CanonicalizeAll(credentials: seq<Credential>) returns (trees: seq<Json>)
    ensures trees == CanonicalCredentials(credentials)
  {
    trees := [];
    for i := 0 to |credentials|
      invariant trees == MapSeq(CanonicalCredential, credentials[..i])
    {
      var tree := Canonicalize(credentials[i]);
      MapTake(CanonicalCredential, credentials, i);
      trees := trees + [tree];
    }
    assert trees == MapSeq(CanonicalCredential, credentials[..|credentials|]);
    assert credentials[..|credentials|] == credentials;
  }

  /** `CredentialSetHash128`: sorts each credential's capabilities, then the credentials by
      their encodings. */
  method CredentialSetHash128(sha: Sha, credentials: seq<Credential>) returns (hash: Hash128)
    ensures hash == CredentialSetHash(sha, credentials)
  {
    if credentials == [] {
      return Truncated(sha, "");
    }
    var marshaled := CanonicalizeAll(credentials);
    var sorted := SortTrees(marshaled);
    hash := Truncated(sha, Print(Arr(sorted)));
  }

  method SortTrees(trees: seq<Json>) returns (r: seq<Json>)
    ensures r == SortBy(TextLess, trees)
  {
    var sorted := new Json[|trees|](j requires 0 <= j < |trees| => trees[j]);
    assert sorted[..] == trees;
    SortInPlace(TextLess, sorted);
    r := sorted[..];
  }

  /** What a credential says, its capabilities taken as a bag. */
  datatype CredentialContent = CredentialContent(
    id: string, kind: string, issuer: string, subject: string,
    capabilities: multiset<string>, validFrom: Time, validUntil: Time, signature: string)

  function Content(c: Credential): CredentialContent {
    CredentialContent(c.id, c.kind, c.issuer, c.subject, multiset(c.Granted()), c.validFrom, c.validUntil, c.signature)
  }

  function Contents(cs: seq<Credential>): seq<CredentialContent> {
    MapSeq(Content, cs)
  }

  lemma StringsInjective(a: seq<string>, b: seq<string>)
    requires Strings(a) == Strings(b)
    ensures a == b
  {
    assert |a| == |Strings(a)| == |Strings(b)| == |b|;
    forall i | 0 <= i < |a| ensures a[i] == b[i] {
      assert Strings(a)[i] == Str(a[i]) && Strings(b)[i] == Str(b[i]);
    }
  }

  lemma CredentialTreeInjective(c: Credential, d: Credential, x: seq<string>, y: seq<string>)
    requires CredentialTree(c, x) == CredentialTree(d, y)
    ensures c.id == d.id && c.kind == d.kind && c.issuer == d.issuer && c.subject == d.subject
    ensures x == y && c.validFrom == d.validFrom && c.validUntil == d.validUntil && c.signature == d.signature
  {
    var m, n := CredentialTree(c, x).members, CredentialTree(d, y).members;
    assert m[0] == n[0] && m[1] == n[1] && m[2] == n[2] && m[3] == n[3] && m[4] == n[4] && m[5] == n[5] && m[6] == n[6]
           && m[7] == n[7];
    Rfc3339Injective(c.validFrom, d.validFrom);
    Rfc3339Injective(c.validUntil, d.validUntil);
    if x != [] {
      StringsInjective(x, y);
    }
  }

  lemma CanonicalCredentialIsContent(c: Credential, d: Credential)
    ensures CanonicalCredential(c) == CanonicalCredential(d) <==> Content(c) == Content(d)
  {
    LessStrictTotal();
    SortByDeterminesMultiset(Less, c.Granted(), d.Granted());
    if CanonicalCredential(c) == CanonicalCredential(d) {
      CredentialTreeInjective(c, d, SortBy(Less, c.Granted()), SortBy(Less, d.Granted()));
    }
  }

  lemma TextLessStrictTotal()
    ensures StrictTotal(TextLess)
  {
    LessStrictTotal();
    assert Connected(TextLess) by {
      forall a, b | a != b ensures TextLess(a, b) || TextLess(b, a) { PrintInjective(a, b); }
    }
    assert Transitive(TextLess) by {
      forall a, b, c | TextLess(a, b) && TextLess(b, c) ensures TextLess(a, c) {
        LessTransitive(Print(a), Print(b), Print(c));
      }
    }
    assert Irreflexive(TextLess) by {
      forall a ensures !TextLess(a, a) { LessIrreflexive(Print(a)); }
    }
  }

  /** The committed bytes are equal exactly when the two lists hold the same credentials in
      any order, each with the same capabilities in any order. */
  lemma CredentialSetTextIsContent(a: seq<Credential>, b: seq<Credential>)
    ensures CredentialSetText(a) == CredentialSetText(b) <==> multiset(Contents(a)) == multiset(Contents(b))
  {
    var ta, tb := CanonicalCredentials(a), CanonicalCredentials(b);
    assert |multiset(Contents(a))| == |a| && |multiset(Contents(b))| == |b|;
    PrintLead(Arr(SortBy(TextLess, ta)), "");
    PrintLead(Arr(SortBy(TextLess, tb)), "");
    if a != [] && b != [] {
      PrintInjective(Arr(SortBy(TextLess, ta)), Arr(SortBy(TextLess, tb)));
      TextLessStrictTotal();
      SortByDeterminesMultiset(TextLess, ta, tb);
      forall c, d ensures CanonicalCredential(c) == CanonicalCredential(d) <==> Content(c) == Content(d) {
        CanonicalCredentialIsContent(c, d);
      }
      SameBags(CanonicalCredential, Content, a, b);
    }
  }

  /** The commitment binds: equal hashes mean equal contents, unless two texts collide. */
  lemma CredentialSetHashBinds(sha: Sha, a: seq<Credential>, b: seq<Credential>)
    requires CollisionFree(sha, {CredentialSetText(a), CredentialSetText(b)})
    ensures CredentialSetHash(sha, a) == CredentialSetHash(sha, b) <==> multiset(Contents(a)) == multiset(Contents(b))
  {
    CredentialSetTextIsContent(a, b);
  }
}
