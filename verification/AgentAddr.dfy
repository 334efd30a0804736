/** Agent identifiers and the signed 120-byte address record. */
module AgentAddr {
  import opened Prelude
  import opened Text

  newtype uint16 = n: int | 0 <= n < 0x1_0000
  newtype uint32 = n: int | 0 <= n < 0x1_0000_0000

  // ----- identifiers -----

  datatype IdError = EmptyAgentId | AgentIdHasWhitespace

  function LowerChar(c: char): char {
    if 'A' <= c <= 'Z' then (c as int + 32) as char else c
  }

  /** The canonical form of an agent id: trimmed, lower case, without inner white space.  `lower` is
      the lowering of one character. */
  function NormalizeWith(lower: char -> char, agentId: string): Result<string, IdError> {
    var normalized := MapSeq(lower, TrimSpace(agentId));
    if normalized == "" then Err(EmptyAgentId)
    else if exists i :: 0 <= i < |normalized| && IsSpace(normalized[i]) then Err(AgentIdHasWhitespace)
    else Ok(normalized)
  }

  function NormalizeAgentID(agentId: string): Result<string, IdError> { NormalizeWith(LowerChar, agentId) }

  function AgentIDHash(sha: Sha, agentId: string): Result<Hash128, IdError> {
    match NormalizeAgentID(agentId)
    case Err(e) => Err(e)
    case Ok(id) => Ok(Truncated(sha, id))
  }

  /** What lowering must do for normal forms to be stable: what it lowered stays, and white space
      is neither made nor lost. */
  ghost predicate Lowers(lower: char -> char) {
    forall c {:trigger lower(c)} :: lower(lower(c)) == lower(c) && (IsSpace(lower(c)) <==> IsSpace(c))
  }

  /** Whatever the table of capitals, normalising is idempotent. */
  lemma NormalizeWithIdempotent(lower: char -> char, agentId: string)
    requires Lowers(lower) && NormalizeWith(lower, agentId).Ok?
    ensures var id := NormalizeWith(lower, agentId).value; id != "" && NormalizeWith(lower, id) == Ok(id)
  {
    var id := NormalizeWith(lower, agentId).value;
    assert TrimLeft(id) == id && TrimRight(id) == id;
    var trimmed := TrimSpace(agentId);
    forall i | 0 <= i < |id| ensures lower(id[i]) == id[i] {
      assert id[i] == lower(trimmed[i]);
    }
    assert MapSeq(lower, id) == id;
  }

  /** Whatever the table of capitals, an id is accepted exactly when something is left of it after
      trimming and nothing inside is white space; what is accepted has neither white space nor
      capitals. */
  lemma NormalizedForm(lower: char -> char, agentId: string)
    requires Lowers(lower)
    ensures NormalizeWith(lower, agentId).Ok? <==>
            TrimSpace(agentId) != "" && forall i :: 0 <= i < |TrimSpace(agentId)| ==> !IsSpace(TrimSpace(agentId)[i])
    ensures NormalizeWith(lower, agentId).Ok? ==>
              forall c :: c in NormalizeWith(lower, agentId).value ==> !IsSpace(c) && lower(c) == c
  {
    var trimmed := TrimSpace(agentId);
    var lowered := MapSeq(lower, trimmed);
    forall i | 0 <= i < |trimmed| ensures IsSpace(lowered[i]) <==> IsSpace(trimmed[i]) {
      assert lowered[i] == lower(trimmed[i]);
    }
  }

  /** Normalising is idempotent, so an id and its normal form hash alike. */
  lemma NormalizeIdempotent(agentId: string)
    requires NormalizeAgentID(agentId).Ok?
    ensures var id := NormalizeAgentID(agentId).value; id != "" && NormalizeAgentID(id) == Ok(id)
  {
    assert Lowers(LowerChar);
    NormalizeWithIdempotent(LowerChar, agentId);
  }

  // ----- the record -----

  const VERSION_1: byte := 1
  const PAYLOAD_SIZE := 56
  const SIGNATURE_SIZE := 64
  const RECORD_SIZE := 120

  type PayloadBytes = s: seq<byte> | |s| == PAYLOAD_SIZE witness seq(PAYLOAD_SIZE, _ => 0)
  type Signature = s: seq<byte> | |s| == SIGNATURE_SIZE witness seq(SIGNATURE_SIZE, _ => 0)

  datatype AgentAddr120 = AgentAddr120(payload: PayloadBytes, signature: Signature) {
    function Payload(): Payload { PayloadOf(payload) }
    function Bytes(): seq<byte> { payload + signature }
  }

  datatype Payload = Payload(
    version: byte,
    flags: byte,
    ttlSeconds: uint16,
    sequence: uint32,
    agentIdHash: Hash128,
    factsPtrHash128: Hash128,
    credentialSet128: Hash128)

  datatype RecordError =
    | InvalidRecordLength | UnsupportedVersion | ZeroTTL
    | InvalidPublicKey | InvalidPrivateKey | InvalidSignature
    | InvalidId(id: IdError)

  function Big16(n: uint16): seq<byte> {
    [(n / 256) as byte, (n % 256) as byte]
  }

  function Big32(n: uint32): seq<byte> {
    [(n / 0x100_0000) as byte, (n / 0x1_0000 % 256) as byte, (n / 256 % 256) as byte, (n % 256) as byte]
  }

  function FromBig16(b: seq<byte>): uint16
    requires |b| == 2
  {
    b[0] as uint16 * 256 + b[1] as uint16
  }

  function FromBig32(b: seq<byte>): uint32
    requires |b| == 4
  {
    b[0] as uint32 * 0x100_0000 + b[1] as uint32 * 0x1_0000 + b[2] as uint32 * 256 + b[3] as uint32
  }

  /** The layout of a payload: one field after another, numbers big-endian. */
  function Layout(p: Payload): PayloadBytes {
    [p.version, p.flags] + Big16(p.ttlSeconds) + Big32(p.sequence) + p.agentIdHash + p.factsPtrHash128
    + p.credentialSet128
  }

  function PayloadOf(b: PayloadBytes): Payload {
    Payload(b[0], b[1], FromBig16(b[2..4]), FromBig32(b[4..8]), b[8..24], b[24..40], b[40..])
  }

  predicate ValidPayload(p: Payload) { p.version == VERSION_1 && p.ttlSeconds > 0 }

  function Validated<T>(p: Payload, value: T): Result<T, RecordError> {
    if p.version != VERSION_1 then Err(UnsupportedVersion)
    else if p.ttlSeconds == 0 then Err(ZeroTTL)
    else Ok(value)
  }

  /** `Decode`, as a function of the bytes. */
  function Decoded(record: seq<byte>): Result<AgentAddr120, RecordError> {
    if |record| != RECORD_SIZE then Err(InvalidRecordLength)
    else
      var addr := AgentAddr120(record[..PAYLOAD_SIZE], record[PAYLOAD_SIZE..]);
      Validated(addr.Payload(), addr)
  }

  lemma Split256(n: nat)
    requires n < 0x1_0000_0000
    ensures n == n / 0x100_0000 * 0x100_0000 + n / 0x1_0000 % 256 * 0x1_0000 + n / 256 % 256 * 256 + n % 256
  {
    assert n / 256 / 256 == n / 0x1_0000 && n / 0x1_0000 / 256 == n / 0x100_0000;
    assert n == n / 256 * 256 + n % 256;
    assert n / 256 == n / 0x1_0000 * 256 + n / 256 % 256;
    assert n / 0x1_0000 == n / 0x100_0000 * 256 + n / 0x1_0000 % 256;
  }

  lemma BigEndianRoundTrips(m: uint16, n: uint32)
    ensures FromBig16(Big16(m)) == m && FromBig32(Big32(n)) == n
  {
    assert m as nat == m as nat / 256 * 256 + m as nat % 256;
    Split256(n as nat);
    assert FromBig32(Big32(n)) as nat == n as nat;
  }

  lemma Digits256(a: nat, b: nat, c: nat, d: nat)
    requires a < 256 && b < 256 && c < 256 && d < 256
    ensures var n := a * 0x100_0000 + b * 0x1_0000 + c * 256 + d;
            n / 0x100_0000 == a && n / 0x1_0000 % 256 == b && n / 256 % 256 == c && n % 256 == d
  {
    var n := a * 0x100_0000 + b * 0x1_0000 + c * 256 + d;
    assert n / 0x1_0000 == a * 256 + b;
    assert n / 256 == a * 0x1_0000 + b * 256 + c;
  }

  lemma BigEndianBytes(b: seq<byte>, c: seq<byte>)
    requires |b| == 2 && |c| == 4
    ensures Big16(FromBig16(b)) == b && Big32(FromBig32(c)) == c
  {
    Digits256(0, 0, b[0] as nat, b[1] as nat);
    Digits256(c[0] as nat, c[1] as nat, c[2] as nat, c[3] as nat);
    var n := FromBig32(c) as nat;
    assert n == c[0] as nat * 0x100_0000 + c[1] as nat * 0x1_0000 + c[2] as nat * 256 + c[3] as nat;
    var m := FromBig16(b) as nat;
    assert m == b[0] as nat * 256 + b[1] as nat;
    assert Big16(FromBig16(b)) == b by {
      assert m / 256 % 256 == b[0] as nat && m / 256 == m / 256 % 256;
    }
  }

  /** Payloads and 56-byte strings correspond one to one. */
  lemma PayloadBijection(p: Payload, b: PayloadBytes)
    ensures PayloadOf(Layout(p)) == p
    ensures Layout(PayloadOf(b)) == b
  {
    BigEndianRoundTrips(p.ttlSeconds, p.sequence);
    var l := Layout(p);
    assert l[2..4] == Big16(p.ttlSeconds) && l[4..8] == Big32(p.sequence);
    assert l[8..24] == p.agentIdHash && l[24..40] == p.factsPtrHash128 && l[40..] == p.credentialSet128;
    BigEndianBytes(b[2..4], b[4..8]);
    assert b == [b[0], b[1]] + b[2..4] + b[4..8] + b[8..24] + b[24..40] + b[40..];
  }

  /** Decoding accepts exactly the encodings of records whose payload is valid, and returns
      the record that was encoded. */
  lemma RecordBijection(bytes: seq<byte>, r: AgentAddr120)
    ensures Decoded(bytes) == Ok(r) <==> bytes == r.Bytes() && ValidPayload(r.Payload())
  {
    var b := r.Bytes();
    assert b[..PAYLOAD_SIZE] == r.payload && b[PAYLOAD_SIZE..] == r.signature;
    if Decoded(bytes) == Ok(r) {
      assert bytes == bytes[..PAYLOAD_SIZE] + bytes[PAYLOAD_SIZE..];
    }
  }

  lemma BytesInjective(a: AgentAddr120, b: AgentAddr120)
    ensures a.Bytes() == b.Bytes() <==> a == b
  {
    assert a.Bytes()[..PAYLOAD_SIZE] == a.payload && b.Bytes()[..PAYLOAD_SIZE] == b.payload;
    assert a.Bytes()[PAYLOAD_SIZE..] == a.signature && b.Bytes()[PAYLOAD_SIZE..] == b.signature;
  }

  // ----- the buffers -----

  method CopyInto(out: array<byte>, at: nat, bytes: seq<byte>)
    requires at + |bytes| <= out.Length
    modifies out
    ensures out[..] == old(out[..at]) + bytes + old(out[at + |bytes|..])
  {
    for i := 0 to |bytes|
      invariant out[..at + i] == old(out[..at]) + bytes[..i]
      invariant out[at + i..] == old(out[at + i..])
    {
      out[at + i] := bytes[i];
      assert out[..at + i + 1] == out[..at + i] + [out[at + i]];
      assert old(out[at + i + 1..]) == old(out[at + i..])[1..];
      assert out[at + i + 1..] == old(out[at + i + 1..]);
    }
    assert out[..] == out[..at + |bytes|] + out[at + |bytes|..];
    assert bytes[..|bytes|] == bytes;
  }

  /** Fills the 56-byte buffer field by field, then checks it. */
  method EncodePayload(p: Payload) returns (r: Result<PayloadBytes, RecordError>)
    ensures r == Validated(p, Layout(p))
  {
    var out := new byte[PAYLOAD_SIZE](_ => 0);
    out[0] := p.version;
    out[1] := p.flags;
    CopyInto(out, 2, Big16(p.ttlSeconds));
    CopyInto(out, 4, Big32(p.sequence));
    assert out[..8] == [p.version, p.flags] + Big16(p.ttlSeconds) + Big32(p.sequence);
    CopyInto(out, 8, p.agentIdHash);
    CopyInto(out, 24, p.factsPtrHash128);
    CopyInto(out, 40, p.credentialSet128);
    assert out[..] == Layout(p);
    PayloadBijection(p, out[..]);
    r := Validated(PayloadOf(out[..]), out[..]);
  }

  /** Splits a record into its two buffers, then checks the payload. */
  method Decode(record: seq<byte>) returns (r: Result<AgentAddr120, RecordError>)
    ensures r == Decoded(record)
    ensures r.Ok? ==> r.value.Bytes() == record && ValidPayload(r.value.Payload())
  {
    if |record| != RECORD_SIZE {
      return Err(InvalidRecordLength);
    }
    var payload, signature := new byte[PAYLOAD_SIZE](_ => 0), new byte[SIGNATURE_SIZE](_ => 0);
    CopyInto(payload, 0, record[..PAYLOAD_SIZE]);
    CopyInto(signature, 0, record[PAYLOAD_SIZE..]);
    assert payload[..] == record[..PAYLOAD_SIZE] && signature[..] == record[PAYLOAD_SIZE..];
    var addr := AgentAddr120(payload[..], signature[..]);
    r := Validated(addr.Payload(), addr);
    RecordBijection(record, addr);
  }

  // ----- signing -----

  /** Ed25519 as the three operations the program calls. */
  datatype Ed25519 = Ed25519(
    sign: (seq<byte>, seq<byte>) -> Signature,
    verify: (seq<byte>, seq<byte>, seq<byte>) -> bool,
    publicOf: seq<byte> -> seq<byte>)

  const PRIVATE_KEY_SIZE := 64
  const PUBLIC_KEY_SIZE := 32

  /** Section 5.1 of RFC 8032: what the private key signs, its public key verifies. */
  ghost predicate Correct(scheme: Ed25519) {
    forall key, message :: scheme.verify(scheme.publicOf(key), message, scheme.sign(key, message))
  }

  function New(sha: Sha, agentId: string, ttlSeconds: uint16, flags: byte, sequence: uint32, pointer: Hash128,
      credentials: Hash128)
    : Result<Payload, RecordError>
  {
    if ttlSeconds == 0 then Err(ZeroTTL)
    else match AgentIDHash(sha, agentId)
      case Err(e) => Err(InvalidId(e))
      case Ok(hash) => Ok(Payload(VERSION_1, flags, ttlSeconds, sequence, hash, pointer, credentials))
  }

  function Signed(scheme: Ed25519, p: Payload, privateKey: seq<byte>): Result<AgentAddr120, RecordError> {
    if |privateKey| != PRIVATE_KEY_SIZE then Err(InvalidPrivateKey)
    else Validated(p, AgentAddr120(Layout(p), scheme.sign(privateKey, Layout(p))))
  }

  function Verify(scheme: Ed25519, r: AgentAddr120, publicKey: seq<byte>): Option<RecordError> {
    if |publicKey| != PUBLIC_KEY_SIZE then Some(InvalidPublicKey)
    else if !scheme.verify(publicKey, r.payload, r.signature) then Some(InvalidSignature)
    else None
  }

  method Sign(scheme: Ed25519, p: Payload, privateKey: seq<byte>) returns (r: Result<AgentAddr120, RecordError>)
    ensures r == Signed(scheme, p, privateKey)
  {
    if |privateKey| != PRIVATE_KEY_SIZE {
      return Err(InvalidPrivateKey);
    }
    var payloadBytes := EncodePayload(p);
    if payloadBytes.Err? {
      return Err(payloadBytes.error);
    }
    var signature := new byte[SIGNATURE_SIZE](_ => 0);
    var made := scheme.sign(privateKey, payloadBytes.value);
    CopyInto(signature, 0, made);
    assert signature[..] == made;
    r := Ok(AgentAddr120(payloadBytes.value, signature[..]));
  }

  /** A signed payload verifies under the matching key, survives storage, and reads back. */
  lemma SignedRecord(scheme: Ed25519, p: Payload, privateKey: seq<byte>)
    requires Correct(scheme) && ValidPayload(p)
    requires |privateKey| == PRIVATE_KEY_SIZE && |scheme.publicOf(privateKey)| == PUBLIC_KEY_SIZE
    ensures Signed(scheme, p, privateKey).Ok?
    ensures var r := Signed(scheme, p, privateKey).value;
            r.Payload() == p && Verify(scheme, r, scheme.publicOf(privateKey)) == None && Decoded(r.Bytes()) == Ok(r)
  {
    PayloadBijection(p, Layout(p));
    var r := Signed(scheme, p, privateKey).value;
    RecordBijection(r.Bytes(), r);
  }
}
