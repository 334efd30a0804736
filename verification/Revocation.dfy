/** Credential status records: the last write for a credential wins. */
module Revocation {
  import opened Prelude
  import opened Clock

  const STATUS_ACTIVE := "active"
  const STATUS_REVOKED := "revoked"

  datatype Key = Key(issuer: string, credentialId: string)

  datatype Record = Record(issuer: string, credentialId: string, status: string, reason: string, updatedAt: Instant)

  type Records = map<Key, Record>

  datatype RevocationError =
    StatusNotFound | IssuerRequired | CredentialIdRequired | UnsupportedStatus | RevocationUnavailable

  function ValidateKey(k: Key): Option<RevocationError> {
    if k.issuer == "" then Some(IssuerRequired) else if k.credentialId == "" then Some(CredentialIdRequired) else None
  }

  function ValidateWrite(k: Key, status: string): Option<RevocationError> {
    match ValidateKey(k)
    case Some(e) => Some(e)
    case None => if status in [STATUS_ACTIVE, STATUS_REVOKED] then None else Some(UnsupportedStatus)
  }

  function StatusIn(records: Records, k: Key): Result<Record, RevocationError> {
    match ValidateKey(k)
    case Some(e) => Err(e)
    case None => if k in records then Ok(records[k]) else Err(StatusNotFound)
  }

  /** A credential nobody has written about is not revoked; a malformed key is an error. */
  function RevokedIn(records: Records, k: Key): Result<bool, RevocationError> {
    match StatusIn(records, k)
    case Ok(r) => Ok(r.status == STATUS_REVOKED)
    case Err(e) => if e == StatusNotFound then Ok(false) else Err(e)
  }

  datatype Write = Write(key: Key, status: string, reason: string, now: Instant)

  function Applied(records: Records, w: Write): Records {
    if ValidateWrite(w.key, w.status) != None then records
    else records[w.key := Record(w.key.issuer, w.key.credentialId, w.status, w.reason, w.now)]
  }

  function AppliedAll(writes: seq<Write>): Records {
    if writes == [] then map[] else Applied(AppliedAll(writes[..|writes| - 1]), writes[|writes| - 1])
  }

  predicate IsLastWrite(writes: seq<Write>, i: nat, k: Key) {
    && i < |writes| && writes[i].key == k && ValidateWrite(k, writes[i].status) == None
    && forall j :: i < j < |writes| && writes[j].key == k ==> ValidateWrite(k, writes[j].status) != None
  }

  /** A credential counts as revoked exactly when its last valid write said so. */
  lemma {:induction false} RevokedIsLastWrite(writes: seq<Write>, k: Key)
    requires ValidateKey(k) == None
    ensures RevokedIn(AppliedAll(writes), k) == Ok(true) <==>
            exists i: nat :: IsLastWrite(writes, i, k) && writes[i].status == STATUS_REVOKED
    ensures k in AppliedAll(writes) ==>
              exists i: nat :: IsLastWrite(writes, i, k) && writes[i].status == AppliedAll(writes)[k].status
  {
    if writes != [] {
      var front, w := writes[..|writes| - 1], writes[|writes| - 1];
      RevokedIsLastWrite(front, k);
      if w.key == k && ValidateWrite(k, w.status) == None {
        assert IsLastWrite(writes, |front|, k);
        forall i: nat | IsLastWrite(writes, i, k) ensures i == |front| {}
      } else {
        forall i: nat ensures IsLastWrite(writes, i, k) <==> IsLastWrite(front, i, k) {
          if i < |front| {
            assert front[i] == writes[i];
            assert forall j :: i < j < |front| ==> front[j] == writes[j];
          }
        }
      }
    }
  }

  ghost predicate NotLastRevoked(writes: seq<Write>, k: Key) {
    forall i: nat :: IsLastWrite(writes, i, k) ==> writes[i].status != STATUS_REVOKED
  }

  lemma NotRevoked(writes: seq<Write>, k: Key)
    requires RevokedIn(AppliedAll(writes), k) == Ok(false)
    ensures NotLastRevoked(writes, k)
  {
    RevokedIsLastWrite(writes, k);
  }

  class MemoryStore {
    var records: Records

    constructor ()
      ensures records == map[]
    {
      records := map[];
    }

    method SetStatus(k: Key, status: string, reason: string, now: Instant, up: bool)
      returns (r: Option<RevocationError>)
      modifies this
      ensures r == match ValidateWrite(k, status) case Some(e) => Some(e) case None => if up then None
              else Some(RevocationUnavailable)
      ensures records == if r == None then Applied(old(records), Write(k, status, reason, now)) else old(records)
    {
      r := ValidateWrite(k, status);
      if r.Some? {
        return;
      }
      if !up {
        return Some(RevocationUnavailable);
      }
      records := records[k := Record(k.issuer, k.credentialId, status, reason, now)];
    }

    method GetStatus(k: Key) returns (r: Result<Record, RevocationError>)
      ensures r == StatusIn(records, k)
    {
      r := StatusIn(records, k);
    }

    method IsRevoked(k: Key) returns (r: Result<bool, RevocationError>)
      ensures r == RevokedIn(records, k)
    {
      var record := GetStatus(k);
      if record == Err(StatusNotFound) {
        return Ok(false);
      }
      if record.Err? {
        return Err(record.error);
      }
      r := Ok(record.value.status == STATUS_REVOKED);
    }
  }
}
