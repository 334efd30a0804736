/** Verification of capability credentials against an issuer allowlist. */
module Trust {
  import opened Prelude
  import opened Text
  import opened Clock
  import opened Json
  import opened AgentAddr
  import opened AgentFacts
  import opened Revocation

  datatype TrustError =
    | MissingCredential | MissingCredentialId | UnsupportedCredentialType | UntrustedIssuer
    | InvalidTrustId(id: IdError) | SubjectMismatch | CredentialNotYetValid | CredentialExpired
    | MissingRequiredCapability | InvalidSignatureEncoding | InvalidCredentialSignature
    | CredentialRevoked | RevocationCheckFailed(why: RevocationError)

  /** The allowlist, and the foreign calls a check makes: UTF-8, base64 and Ed25519. */
  datatype Verifier = Verifier(
    issuers: map<string, seq<byte>>,
    checksRevocation: bool,
    utf8: string -> seq<byte>,
    base64: string -> Option<seq<byte>>,
    scheme: Ed25519)

  /** The signed JSON object: capabilities keep their order, and nil differs from empty. */
  function SigningTree(c: Credential): Json {
    Obj([
      Member("id", Str(c.id)),
      Member("type", Str(c.kind)),
      Member("issuer", Str(c.issuer)),
      Member("subject", Str(c.subject)),
      Member("capabilities", if c.capabilities == None then Null else Arr(Strings(c.capabilities.value))),
      Member("validFrom", Str(Rfc3339(c.validFrom))),
      Member("validUntil", Str(Rfc3339(c.validUntil)))
    ])
  }

  function SigningPayload(c: Credential): string { Print(SigningTree(c)) }

  /** The signed bytes determine every field but the signature. */
  lemma SigningPayloadInjective(c: Credential, d: Credential)
    ensures SigningPayload(c) == SigningPayload(d) <==> c.(signature := "") == d.(signature := "")
  {
    PrintInjective(SigningTree(c), SigningTree(d));
    if SigningTree(c) == SigningTree(d) {
      var m, n := SigningTree(c).members, SigningTree(d).members;
      assert m[0] == n[0] && m[1] == n[1] && m[2] == n[2] && m[3] == n[3] && m[4] == n[4] && m[5] == n[5]
             && m[6] == n[6];
      Rfc3339Injective(c.validFrom, d.validFrom);
      Rfc3339Injective(c.validUntil, d.validUntil);
      if c.capabilities.Some? {
        StringsInjective(c.capabilities.value, d.capabilities.value);
      }
    }
  }

  /** The checks that look only at the credential and the request. */
  function CheckTerms(c: Credential, requestedAgentId: string, requiredCapability: string,
        now: Instant): Option<TrustError> {
    match (NormalizeAgentID(requestedAgentId), NormalizeAgentID(c.subject))
    case (Err(e), _) => Some(InvalidTrustId(e))
    case (_, Err(e)) => Some(InvalidTrustId(e))
    case (Ok(requested), Ok(subject)) =>
      if subject != requested then Some(SubjectMismatch)
      else if c.validFrom.nanos > now then Some(CredentialNotYetValid)
      else if c.validUntil.nanos <= now then Some(CredentialExpired)
      else if requiredCapability == "" || requiredCapability !in c.Granted() then Some(MissingRequiredCapability)
      else None
  }

  function CheckSignature(v: Verifier, c: Credential): Option<TrustError> {
    match v.base64(c.signature)
    case None => Some(InvalidSignatureEncoding)
    case Some(signature) =>
      if c.issuer in v.issuers && v.scheme.verify(v.issuers[c.issuer], v.utf8(SigningPayload(c)), signature)
      then None else Some(InvalidCredentialSignature)
  }

  function CheckStatus(v: Verifier, records: Records, c: Credential): Option<TrustError> {
    if !v.checksRevocation then None
    else match RevokedIn(records, Key(c.issuer, c.id))
      case Err(e) => Some(RevocationCheckFailed(e))
      case Ok(revoked) => if revoked then Some(CredentialRevoked) else None
  }

  /** `verifyCredential`: the first check that fails, if any. */
  function VerifyCredential(v: Verifier, records: Records, c: Credential, requestedAgentId: string,
      requiredCapability: string, now: Instant)
    : Option<TrustError>
  {
    if c.kind != AGENT_CAPABILITY_CREDENTIAL then Some(UnsupportedCredentialType)
    else if TrimSpace(c.id) == "" then Some(MissingCredentialId)
    else if c.issuer !in v.issuers then Some(UntrustedIssuer)
    else match CheckTerms(c, requestedAgentId, requiredCapability, now)
      case Some(e) => Some(e)
      case None => match CheckSignature(v, c)
        case Some(e) => Some(e)
        case None => CheckStatus(v, records, c)
  }

  ghost predicate Grants(v: Verifier, records: Records, c: Credential, id: string, capability: string, now: Instant) {
    && c.kind == AGENT_CAPABILITY_CREDENTIAL && TrimSpace(c.id) != "" && c.issuer in v.issuers
    && NormalizeAgentID(id).Ok? && NormalizeAgentID(c.subject) == NormalizeAgentID(id)
    && c.validFrom.nanos <= now < c.validUntil.nanos
    && capability != "" && capability in c.Granted()
    && v.base64(c.signature).Some?
    && v.scheme.verify(v.issuers[c.issuer], v.utf8(SigningPayload(c)), v.base64(c.signature).value)
    && (v.checksRevocation ==> RevokedIn(records, Key(c.issuer, c.id)) == Ok(false))
  }

  lemma VerifyIsGrants(v: Verifier, records: Records, c: Credential, id: string, capability: string, now: Instant)
    ensures VerifyCredential(v, records, c, id, capability, now) == None <==> Grants(v, records, c, id, capability, now)
  {}

  /** Accepted by the first item that passes, and otherwise refused with the last error. */
  function Search<T, E>(check: T -> Option<E>, nothing: E, items: seq<T>): Option<E> {
    if items == [] then Some(nothing)
    else if Search(check, nothing, items[..|items| - 1]) == None then None
    else check(items[|items| - 1])
  }

  lemma {:induction false} SearchFinds<T, E>(check: T -> Option<E>, nothing: E, items: seq<T>)
    ensures Search(check, nothing, items) == None <==> exists x :: x in items && check(x) == None
  {
    if items != [] {
      var front, last := items[..|items| - 1], items[|items| - 1];
      SearchFinds(check, nothing, front);
      assert forall x :: x in items <==> x in front || x == last;
    }
  }

  function Decide(v: Verifier, records: Records, credentials: seq<Credential>, id: string, capability: string,
        now: Instant): Option<TrustError> {
    Search((c: Credential) => VerifyCredential(v, records, c, id, capability, now), MissingCredential, credentials)
  }

  /** A list is accepted exactly when one of its credentials passes every check. */
  lemma AcceptedIffGranted(v: Verifier, records: Records, credentials: seq<Credential>, id: string, capability: string,
      now: Instant)
    ensures Decide(v, records, credentials, id, capability, now) == None <==>
            exists c :: c in credentials && Grants(v, records, c, id, capability, now)
  {
    SearchFinds((c: Credential) => VerifyCredential(v, records, c, id, capability, now), MissingCredential,
          credentials);
    forall c | c in credentials
      ensures VerifyCredential(v, records, c, id, capability, now) == None <==>
                Grants(v, records, c, id, capability, now)
    {
      VerifyIsGrants(v, records, c, id, capability, now);
    }
  }

  /** `VerifyCapability`. */
  method VerifyCapability(v: Verifier, store: MemoryStore, credentials: seq<Credential>, id: string,
      capability: string, now: Instant)
    returns (r: Option<TrustError>)
    ensures r == Decide(v, store.records, credentials, id, capability, now)
  {
    var records := store.records;
    ghost var check := (c: Credential) => VerifyCredential(v, records, c, id, capability, now);
    var lastErr: Option<TrustError> := None;
    for i := 0 to |credentials|
      invariant Search(check, MissingCredential, credentials[..i]) == Some(if lastErr == None then MissingCredential
                else lastErr.value)
    {
      var err := VerifyCredential(v, records, credentials[i], id, capability, now);
      assert credentials[..i + 1][..i] == credentials[..i];
      if err == None {
        SearchStops(check, MissingCredential, credentials, i + 1);
        return None;
      }
      lastErr := err;
    }
    assert credentials[..|credentials|] == credentials;
    r := Some(if lastErr == None then MissingCredential else lastErr.value);
  }

  lemma {:induction false} SearchStops<T, E>(check: T -> Option<E>, nothing: E, items: seq<T>, i: nat)
    requires i <= |items| && Search(check, nothing, items[..i]) == None
    ensures Search(check, nothing, items) == None
  {
    if i < |items| {
      assert items[..|items| - 1][..i] == items[..i];
      SearchStops(check, nothing, items[..|items| - 1], i);
    } else {
      assert items[..i] == items;
    }
  }

  /** Acceptance does not depend on the order of the credentials. */
  lemma OrderDoesNotDecide(v: Verifier, records: Records, a: seq<Credential>, b: seq<Credential>, id: string,
      capability: string, now: Instant)
    requires multiset(a) == multiset(b)
    ensures Decide(v, records, a, id, capability, now) == None <==> Decide(v, records, b, id, capability, now) == None
  {
    AcceptedIffGranted(v, records, a, id, capability, now);
    AcceptedIffGranted(v, records, b, id, capability, now);
    forall c ensures c in a <==> c in b {
      assert c in a <==> c in multiset(a);
      assert c in b <==> c in multiset(b);
    }
  }

  lemma RevokingGrantsLess(v: Verifier, records: Records, w: Write, c: Credential, id: string, capability: string,
      now: Instant)
    requires w.status == STATUS_REVOKED && Grants(v, Applied(records, w), c, id, capability, now)
    ensures Grants(v, records, c, id, capability, now)
  {
    RevokingClearsNothing(records, w, Key(c.issuer, c.id));
  }

  lemma RevokingClearsNothing(records: Records, w: Write, k: Key)
    requires w.status == STATUS_REVOKED
    ensures RevokedIn(Applied(records, w), k) == Ok(false) ==> RevokedIn(records, k) == Ok(false)
  {}

  /** Revoking one more credential never turns a refusal into an acceptance. */
  lemma RevokingNeverHelps(v: Verifier, records: Records, w: Write, credentials: seq<Credential>, id: string,
      capability: string, now: Instant)
    requires w.status == STATUS_REVOKED
    ensures Decide(v, Applied(records, w), credentials, id, capability, now) == None ==>
              Decide(v, records, credentials, id, capability, now) == None
  {
    AcceptedIffGranted(v, records, credentials, id, capability, now);
    AcceptedIffGranted(v, Applied(records, w), credentials, id, capability, now);
    forall c | Grants(v, Applied(records, w), c, id, capability, now)
      ensures Grants(v, records, c, id, capability, now)
    {
      RevokingGrantsLess(v, records, w, c, id, capability, now);
    }
  }

  /** After any status writes, acceptance rests on a credential that meets every term and
      whose last valid status write, if there is one, did not revoke it. */
  lemma AcceptanceHasWitness(v: Verifier, writes: seq<Write>, credentials: seq<Credential>, id: string,
      capability: string, now: Instant)
    requires Decide(v, AppliedAll(writes), credentials, id, capability, now) == None
    ensures exists c :: c in credentials && Grants(v, AppliedAll(writes), c, id, capability, now)
                        && (v.checksRevocation ==> NotLastRevoked(writes, Key(c.issuer, c.id)))
  {
    AcceptedIffGranted(v, AppliedAll(writes), credentials, id, capability, now);
    var c :| c in credentials && Grants(v, AppliedAll(writes), c, id, capability, now);
    if v.checksRevocation {
      NotRevoked(writes, Key(c.issuer, c.id));
    }
  }

  /** `NewVerifier`: the allowlist is taken over only when every key has the right size. */
  method NewVerifier(issuers: map<string, seq<byte>>, checksRevocation: bool, utf8: string -> seq<byte>,
      base64: string -> Option<seq<byte>>, scheme: Ed25519)
    returns (r: Result<Verifier, RecordError>)
    ensures r.Ok? <==> forall issuer :: issuer in issuers ==> |issuers[issuer]| == PUBLIC_KEY_SIZE
    ensures r.Ok? ==> r.value.issuers == issuers && r.value.checksRevocation == checksRevocation
    ensures r.Err? ==> r.error == InvalidPublicKey
  {
    var copied: map<string, seq<byte>> := map[];
    var left := issuers.Keys;
    while left != {}
      invariant left <= issuers.Keys && copied.Keys == issuers.Keys - left
      invariant forall issuer :: issuer in copied ==>
                  copied[issuer] == issuers[issuer] && |issuers[issuer]| == PUBLIC_KEY_SIZE
      decreases left
    {
      var issuer :| issuer in left;
      if |issuers[issuer]| != PUBLIC_KEY_SIZE {
        return Err(InvalidPublicKey);
      }
      copied := copied[issuer := issuers[issuer]];
      left := left - {issuer};
    }
    assert copied == issuers;
    r := Ok(Verifier(copied, checksRevocation, utf8, base64, scheme));
  }
}
