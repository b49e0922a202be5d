// Doctrine-pinned DSSE receipts and the gate that classifies operations (szl_mesh.receipts).
module Receipts {
  import opened Prelude
  import opened Crdt
  import Pae

  const DOCTRINE_VERSION := "749/14/163"
  const KERNEL_COMMIT := "c7c0ba17"
  const SLSA_LEVEL := "L1"
  const SECTION_889_VENDORS: seq<string> := ["Huawei", "ZTE", "Hytera", "Hikvision", "Dahua"]
  const PAYLOAD_TYPE := "application/vnd.szl.mesh.state-transition+json"
  const SIGNATURE_ALGORITHM := "ECDSA-P256-SHA256"
  const TRANSITION_CLASSES: set<string> :=
    {"PLATFORM_STATUS", "DEPLOYMENT", "PACKAGE", "COMMAND", "CELL_FORMATION"}
  const CLOCK_SKEW_SECONDS: real := 5.0

  /** A state-transition statement. None: the field is absent or has the wrong shape;
      the timestamp is in whole seconds once parsed. */
  datatype Statement = Statement(
    doctrineVersion: Option<string>, kernelCommit: Option<string>, docId: string, changeHash: Option<string>,
    fromHeads: seq<string>, toHeads: seq<string>, transitionClass: string, nodeId: Option<string>,
    timestamp: Option<int>, vendors: Option<seq<string>>)

  datatype Signature = Signature(keyid: Option<string>, algorithm: Option<string>, sig: Option<bytes>,
                                 publicKeyDer: Option<bytes>)

  /** A DSSE envelope, its base64 fields decoded (None when absent or undecodable). */
  datatype Envelope = Envelope(payloadType: Option<string>, payload: Option<bytes>, signatures: seq<Signature>)

  datatype ReceiptStatus =
    | RECEIPT_VALID | RECEIPT_MISSING | RECEIPT_BAD_SIGNATURE | RECEIPT_WRONG_DOCTRINE | RECEIPT_WRONG_KERNEL
    | RECEIPT_REVOKED | RECEIPT_CLOCK_SKEW | RECEIPT_HASH_MISMATCH | RECEIPT_BAD_VENDORS

  datatype GateResult = GateResult(track: Track, status: ReceiptStatus, statement: Option<Statement>)

  /** The library functions the mesh calls. Nothing is assumed about them unless a lemma says so. */
  datatype Suite = Suite(
    opId: Hash,                                // SHA-256 of an operation's canonical bytes
    utf8: string -> bytes,
    decode: bytes -> Option<Statement>,        // json.loads, None unless an object
    encode: Statement -> bytes,                // canonical JSON
    loadKey: bytes -> Option<bytes>,           // canonical DER of a P-256 public key
    nodeIdOf: bytes -> string,                 // SHA-256 of a canonical DER
    publicKey: bytes -> bytes,                 // canonical DER for a private key
    sign: (bytes, bytes) -> bytes,             // private key, message
    verify: (bytes, bytes, bytes) -> bool,     // canonical DER, message, signature
    hmac: (bytes, string) -> string,
    parseTime: string -> Option<real>,
    covered: string -> bool)                   // a hardware vendor matches a covered one

  /** The public key of a private key loads as itself. */
  predicate KeyLoads(u: Suite, key: bytes) { u.loadKey(u.publicKey(key)) == Some(u.publicKey(key)) }

  /** And what is signed with the key verifies under it. */
  ghost predicate KeyWorks(u: Suite, key: bytes)
  {
    KeyLoads(u, key) && forall m :: u.verify(u.publicKey(key), m, u.sign(key, m))
  }

  /** JSON reads this statement back as it was written. */
  predicate ReadsBack(u: Suite, stmt: Statement) { u.decode(u.encode(stmt)) == Some(stmt) }

  // ---- making a receipt ----

  function BuildStatement(docId: string, changeHash: string, fromHeads: seq<string>, toHeads: seq<string>,
                          nodeId: string, transitionClass: string, timestamp: int): Statement
  {
    Statement(Some(DOCTRINE_VERSION), Some(KERNEL_COMMIT), docId, Some(changeHash), fromHeads, toHeads,
              transitionClass, Some(nodeId), Some(timestamp), Some(SECTION_889_VENDORS))
  }

  function SigningInput(u: Suite, payloadType: string, payload: bytes): bytes
  {
    Pae.EncodeJoined(u.utf8(payloadType), payload)
  }

  datatype BuildError = NodeIdNotOwnedBySigner

  function BuildReceipt(u: Suite, stmt: Statement, key: bytes): Result<Envelope, BuildError>
  {
    var pub := u.publicKey(key);
    var signer := u.nodeIdOf(pub);
    if stmt.nodeId != Some(signer) then Failure(NodeIdNotOwnedBySigner)
    else
      var payload := u.encode(stmt);
      var sig := u.sign(key, SigningInput(u, PAYLOAD_TYPE, payload));
      Success(Envelope(Some(PAYLOAD_TYPE), Some(payload),
                       [Signature(Some(signer), Some(SIGNATURE_ALGORITHM), Some(sig), Some(pub))]))
  }

  // ---- checking a receipt ----

  function DecodeStatement(u: Suite, e: Envelope): Option<Statement>
  {
    if e.payload == None then None else u.decode(e.payload.value)
  }

  /** The signature verifies under the embedded key, which owns the key id and the statement's node id. */
  predicate SignatureVerifies(u: Suite, e: Envelope)
  {
    && e.payloadType.Some? && |e.signatures| == 1
    && var s := e.signatures[0];
    && s.algorithm == Some(SIGNATURE_ALGORITHM)
    && DecodeStatement(u, e).Some? && s.publicKeyDer.Some?
    && var key := u.loadKey(s.publicKeyDer.value);
    && key.Some?
    && s.keyid == Some(u.nodeIdOf(key.value))
    && DecodeStatement(u, e).value.nodeId == Some(u.nodeIdOf(key.value))
    && s.sig.Some?
    && u.verify(key.value, SigningInput(u, e.payloadType.value, e.payload.value), s.sig.value)
  }

  /** The receipt gate. `changeId` is the SHA-256 of the raw change; it never drops an operation. */
  function ValidateReceipt(u: Suite, receipt: Option<Envelope>, changeId: string, now: real, revoked: set<string>,
                           skew: real, registry: Option<map<string, bytes>>): (r: GateResult)
    ensures r.track == AUTHORIZED || r.track == OBSERVED
    ensures r.track == AUTHORIZED <==> r.status == RECEIPT_VALID
  {
    if receipt == None || receipt.value.payloadType != Some(PAYLOAD_TYPE) then
      GateResult(OBSERVED, RECEIPT_MISSING, None)
    else
      var e := receipt.value;
      var decoded := DecodeStatement(u, e);
      if decoded == None then GateResult(OBSERVED, RECEIPT_MISSING, None)
      else
        var stmt := decoded.value;
        if stmt.doctrineVersion != Some(DOCTRINE_VERSION) then GateResult(OBSERVED, RECEIPT_WRONG_DOCTRINE, decoded)
        else if stmt.kernelCommit != Some(KERNEL_COMMIT) then GateResult(OBSERVED, RECEIPT_WRONG_KERNEL, decoded)
        else if stmt.vendors != Some(SECTION_889_VENDORS) then GateResult(OBSERVED, RECEIPT_BAD_VENDORS, decoded)
        else if !SignatureVerifies(u, e) then GateResult(OBSERVED, RECEIPT_BAD_SIGNATURE, decoded)
        else
          var signer := stmt.nodeId.value;
          if registry.Some? && (signer !in registry.value
              || registry.value[signer] != e.signatures[0].publicKeyDer.value)
          then GateResult(OBSERVED, RECEIPT_BAD_SIGNATURE, decoded)
          else if signer in revoked then GateResult(OBSERVED, RECEIPT_REVOKED, decoded)
          else if Some(changeId) != stmt.changeHash then GateResult(OBSERVED, RECEIPT_HASH_MISMATCH, decoded)
          else if stmt.timestamp == None || Distance(now, stmt.timestamp.value as real) > skew
          then GateResult(OBSERVED, RECEIPT_CLOCK_SKEW, decoded)
          else GateResult(AUTHORIZED, RECEIPT_VALID, decoded)
  }

  function Distance(a: real, b: real): real { if a >= b then a - b else b - a }

  /** The one signature is over the DSSE encoding of the type and the payload, by the key that owns the key id and the
      statement's node id. */
  ghost predicate SignedBy(u: Suite, e: Envelope, stmt: Statement, key: bytes)
  {
    && |e.signatures| == 1 && e.payloadType.Some? && e.payload.Some?
    && var s := e.signatures[0];
    && s.algorithm == Some(SIGNATURE_ALGORITHM) && s.keyid == stmt.nodeId == Some(u.nodeIdOf(key))
    && s.publicKeyDer.Some? && u.loadKey(s.publicKeyDer.value) == Some(key)
    && s.sig.Some? && u.verify(key, Pae.Encode(u.utf8(e.payloadType.value), e.payload.value), s.sig.value)
  }

  /** Everything an authorization rests on. */
  ghost predicate Evidence(u: Suite, e: Envelope, changeId: string, now: real, revoked: set<string>, skew: real,
                           registry: map<string, bytes>)
  {
    && e.payloadType == Some(PAYLOAD_TYPE) && e.payload.Some? && u.decode(e.payload.value).Some?
    && var stmt := u.decode(e.payload.value).value;
    && stmt.doctrineVersion == Some(DOCTRINE_VERSION) && stmt.kernelCommit == Some(KERNEL_COMMIT)
    && stmt.vendors == Some(SECTION_889_VENDORS)
    && stmt.changeHash == Some(changeId)
    && (exists key :: SignedBy(u, e, stmt, key))
    && stmt.nodeId.value in registry && registry[stmt.nodeId.value] == e.signatures[0].publicKeyDer.value
    && stmt.nodeId.value !in revoked
    && stmt.timestamp.Some? && -skew <= now - stmt.timestamp.value as real <= skew
  }

  /** The two ways of saying that the signature verifies are one. */
  lemma VerifiesIffSigned(u: Suite, e: Envelope)
    ensures SignatureVerifies(u, e) <==>
      DecodeStatement(u, e).Some? && exists key :: SignedBy(u, e, DecodeStatement(u, e).value, key)
  {
    if e.payloadType.Some? && e.payload.Some? { Pae.SameEncoding(u.utf8(e.payloadType.value), e.payload.value); }
    if SignatureVerifies(u, e) {
      assert SignedBy(u, e, DecodeStatement(u, e).value, u.loadKey(e.signatures[0].publicKeyDer.value).value);
    }
  }

  /** With a registry, an operation is authorized exactly when there is evidence for it. */
  lemma AuthorizedIffEvidence(u: Suite, receipt: Option<Envelope>, changeId: string, now: real, revoked: set<string>,
                              skew: real, registry: map<string, bytes>)
    ensures ValidateReceipt(u, receipt, changeId, now, revoked, skew, Some(registry)).track == AUTHORIZED <==>
      receipt.Some? && Evidence(u, receipt.value, changeId, now, revoked, skew, registry)
  {
    if receipt.Some? { VerifiesIffSigned(u, receipt.value); }
  }

  // ---- what a refusal means ----

  function Rank(status: ReceiptStatus): nat
  {
    match status
    case RECEIPT_MISSING => 0
    case RECEIPT_WRONG_DOCTRINE => 1
    case RECEIPT_WRONG_KERNEL => 2
    case RECEIPT_BAD_VENDORS => 3
    case RECEIPT_BAD_SIGNATURE => 4
    case RECEIPT_REVOKED => 5
    case RECEIPT_HASH_MISMATCH => 6
    case RECEIPT_CLOCK_SKEW => 7
    case RECEIPT_VALID => 8
  }

  /** What each status complains of in an envelope that states this. */
  ghost predicate Complaint(u: Suite, status: ReceiptStatus, e: Envelope, stmt: Statement, changeId: string, now: real,
                            revoked: set<string>, skew: real, registry: Option<map<string, bytes>>)
  {
    match status
    case RECEIPT_MISSING => false
    case RECEIPT_WRONG_DOCTRINE => stmt.doctrineVersion != Some(DOCTRINE_VERSION)
    case RECEIPT_WRONG_KERNEL => stmt.kernelCommit != Some(KERNEL_COMMIT)
    case RECEIPT_BAD_VENDORS => stmt.vendors != Some(SECTION_889_VENDORS)
    case RECEIPT_BAD_SIGNATURE =>
      !exists key :: SignedBy(u, e, stmt, key) && (registry.Some? ==>
        u.nodeIdOf(key) in registry.value && Some(registry.value[u.nodeIdOf(key)]) == e.signatures[0].publicKeyDer)
    case RECEIPT_REVOKED => exists n :: n in revoked && stmt.nodeId == Some(n)
    case RECEIPT_HASH_MISMATCH => stmt.changeHash != Some(changeId)
    case RECEIPT_CLOCK_SKEW =>
      !exists t :: stmt.timestamp == Some(t) && -skew <= now - t as real <= skew
    case RECEIPT_VALID => true
  }

  /** The first status in the gate's order that has something to complain of in a readable receipt, or for an unreadable
      one the status of no receipt. */
  ghost predicate Fits(u: Suite, status: ReceiptStatus, receipt: Option<Envelope>, changeId: string, now: real,
                       revoked: set<string>, skew: real, registry: Option<map<string, bytes>>)
  {
    if receipt.Some? && receipt.value.payloadType == Some(PAYLOAD_TYPE) && receipt.value.payload.Some?
      && u.decode(receipt.value.payload.value).Some?
    then
      var e, stmt := receipt.value, u.decode(receipt.value.payload.value).value;
      && Complaint(u, status, e, stmt, changeId, now, revoked, skew, registry)
      && forall s :: Rank(s) < Rank(status) ==> !Complaint(u, s, e, stmt, changeId, now, revoked, skew, registry)
    else status == RECEIPT_MISSING
  }

  lemma StatusExact(u: Suite, receipt: Option<Envelope>, changeId: string, now: real, revoked: set<string>, skew: real,
                    registry: Option<map<string, bytes>>)
    ensures
      var r := ValidateReceipt(u, receipt, changeId, now, revoked, skew, registry);
      && Fits(u, r.status, receipt, changeId, now, revoked, skew, registry)
      && (r.status != RECEIPT_MISSING ==> r.statement == u.decode(receipt.value.payload.value))
  {
    if receipt.Some? && DecodeStatement(u, receipt.value).Some? {
      VerifiesIffSigned(u, receipt.value);
    }
  }

  /** An honestly made receipt verifies, and states what it was made from. */
  lemma BuiltReceiptVerifies(u: Suite, stmt: Statement, key: bytes)
    requires KeyWorks(u, key) && ReadsBack(u, stmt) && stmt.nodeId == Some(u.nodeIdOf(u.publicKey(key)))
    ensures BuildReceipt(u, stmt, key).Success?
    ensures SignatureVerifies(u, BuildReceipt(u, stmt, key).value)
    ensures DecodeStatement(u, BuildReceipt(u, stmt, key).value) == Some(stmt)
  {
  }
}
