// Doctrine-gated enrollment (szl_mesh.enrollment).
module Enrollment {
  import opened Prelude
  import opened Receipts

  datatype Request = Request(
    nodeId: string, publicKeyDer: Option<bytes>, proof: string, timestamp: string,
    doctrineVersion: string, kernelCommit: string, slsaLevel: string,
    vendorExclusionConfirmed: bool, hardwareVendor: string)

  datatype Certificate = Certificate(nodeId: string, publicKeyDer: bytes, enrolledAt: real,
                                     doctrineVersion: string, kernelCommit: string)

  datatype Rejection =
    | BAD_FORMATION_PROOF | BAD_TIMESTAMP | TIMESTAMP_OUT_OF_WINDOW | WRONG_DOCTRINE | WRONG_KERNEL | WRONG_SLSA
    | REVOKED_NODE | SECTION_889_NOT_CONFIRMED | SECTION_889_VIOLATION | DUPLICATE_NODE_ID
    | INVALID_PUBLIC_KEY | NODE_ID_KEY_MISMATCH

  /** The gateway's certificate store and revocation set. */
  datatype Gateway = Gateway(formationKey: bytes, skew: real, certStore: map<string, Certificate>, revoked: set<string>)

  function FormationProof(u: Suite, formationKey: bytes, nodeId: string, timestamp: string,
                          doctrineVersion: string, kernelCommit: string): string
  {
    u.hmac(formationKey, nodeId + timestamp + doctrineVersion + kernelCommit)
  }

  function BuildRequest(u: Suite, formationKey: bytes, nodeId: string, publicKeyDer: bytes, timestamp: string,
                        doctrineVersion: string, kernelCommit: string, slsaLevel: string,
                        hardwareVendor: string): Request
  {
    Request(nodeId, Some(publicKeyDer),
            FormationProof(u, formationKey, nodeId, timestamp, doctrineVersion, kernelCommit),
            timestamp, doctrineVersion, kernelCommit, slsaLevel, true, hardwareVendor)
  }

  /** The gateway's decision, in the order of its checks. */
  function Decide(u: Suite, g: Gateway, q: Request, now: real): Result<Certificate, Rejection>
  {
    var time := u.parseTime(q.timestamp);
    if FormationProof(u, g.formationKey, q.nodeId, q.timestamp, q.doctrineVersion, q.kernelCommit) != q.proof
      then Failure(BAD_FORMATION_PROOF)
    else if time == None then Failure(BAD_TIMESTAMP)
    else if Distance(now, time.value) > g.skew then Failure(TIMESTAMP_OUT_OF_WINDOW)
    else if q.doctrineVersion != DOCTRINE_VERSION then Failure(WRONG_DOCTRINE)
    else if q.kernelCommit != KERNEL_COMMIT then Failure(WRONG_KERNEL)
    else if q.slsaLevel != SLSA_LEVEL then Failure(WRONG_SLSA)
    else if q.nodeId in g.revoked then Failure(REVOKED_NODE)
    else if !q.vendorExclusionConfirmed then Failure(SECTION_889_NOT_CONFIRMED)
    else if u.covered(q.hardwareVendor) then Failure(SECTION_889_VIOLATION)
    else if q.nodeId in g.certStore then Failure(DUPLICATE_NODE_ID)
    else if q.publicKeyDer == None || u.loadKey(q.publicKeyDer.value) != q.publicKeyDer then Failure(INVALID_PUBLIC_KEY)
    else if q.nodeId != u.nodeIdOf(q.publicKeyDer.value) then Failure(NODE_ID_KEY_MISMATCH)
    else Success(Certificate(q.nodeId, q.publicKeyDer.value, now, DOCTRINE_VERSION, KERNEL_COMMIT))
  }

  /** All that a request must show, in no particular order. */
  ghost predicate Qualifies(u: Suite, g: Gateway, q: Request, now: real)
  {
    && q.proof == u.hmac(g.formationKey, q.nodeId + q.timestamp + q.doctrineVersion + q.kernelCommit)
    && (exists t :: u.parseTime(q.timestamp) == Some(t) && -g.skew <= now - t <= g.skew)
    && q.doctrineVersion == DOCTRINE_VERSION && q.kernelCommit == KERNEL_COMMIT && q.slsaLevel == SLSA_LEVEL
    && q.vendorExclusionConfirmed && !u.covered(q.hardwareVendor)
    && q.nodeId !in g.revoked && q.nodeId !in g.certStore
    && (exists key :: q.publicKeyDer == Some(key) && u.loadKey(key) == Some(key) && u.nodeIdOf(key) == q.nodeId)
  }

  /** A request is admitted exactly when it qualifies; the certificate is then for its own id, key and claims. */
  lemma AdmittedIffQualifies(u: Suite, g: Gateway, q: Request, now: real)
    ensures Decide(u, g, q, now).Success? <==> Qualifies(u, g, q, now)
    ensures Decide(u, g, q, now).Success? ==>
      q.publicKeyDer.Some? && Decide(u, g, q, now).value ==
      Certificate(u.nodeIdOf(q.publicKeyDer.value), q.publicKeyDer.value, now, q.doctrineVersion, q.kernelCommit)
  {
    var time := u.parseTime(q.timestamp);
    if Decide(u, g, q, now).Success? {
      assert time == Some(time.value) && q.publicKeyDer == Some(q.publicKeyDer.value);
    }
  }

  /** The place of a reason in the order of the checks. */
  function Rank(reason: Rejection): nat
  {
    match reason
    case BAD_FORMATION_PROOF => 0
    case BAD_TIMESTAMP => 1
    case TIMESTAMP_OUT_OF_WINDOW => 2
    case WRONG_DOCTRINE => 3
    case WRONG_KERNEL => 4
    case WRONG_SLSA => 5
    case REVOKED_NODE => 6
    case SECTION_889_NOT_CONFIRMED => 7
    case SECTION_889_VIOLATION => 8
    case DUPLICATE_NODE_ID => 9
    case INVALID_PUBLIC_KEY => 10
    case NODE_ID_KEY_MISMATCH => 11
  }

  /** What each reason complains of. */
  ghost predicate Complaint(u: Suite, g: Gateway, q: Request, now: real, reason: Rejection)
  {
    match reason
    case BAD_FORMATION_PROOF =>
      q.proof != u.hmac(g.formationKey, q.nodeId + q.timestamp + q.doctrineVersion + q.kernelCommit)
    case BAD_TIMESTAMP => u.parseTime(q.timestamp) == None
    case TIMESTAMP_OUT_OF_WINDOW =>
      exists t :: u.parseTime(q.timestamp) == Some(t) && !(-g.skew <= now - t <= g.skew)
    case WRONG_DOCTRINE => q.doctrineVersion != DOCTRINE_VERSION
    case WRONG_KERNEL => q.kernelCommit != KERNEL_COMMIT
    case WRONG_SLSA => q.slsaLevel != SLSA_LEVEL
    case REVOKED_NODE => q.nodeId in g.revoked
    case SECTION_889_NOT_CONFIRMED => !q.vendorExclusionConfirmed
    case SECTION_889_VIOLATION => u.covered(q.hardwareVendor)
    case DUPLICATE_NODE_ID => q.nodeId in g.certStore
    case INVALID_PUBLIC_KEY => !exists key :: q.publicKeyDer == Some(key) && u.loadKey(key) == Some(key)
    case NODE_ID_KEY_MISMATCH => exists key :: q.publicKeyDer == Some(key) && u.nodeIdOf(key) != q.nodeId
  }

  /** A request is rejected for a reason exactly when that is the first one to complain of something. */
  lemma RejectedIffFirst(u: Suite, g: Gateway, q: Request, now: real, reason: Rejection)
    ensures Decide(u, g, q, now) == Failure(reason) <==>
      && Complaint(u, g, q, now, reason)
      && forall earlier :: Rank(earlier) < Rank(reason) ==> !Complaint(u, g, q, now, earlier)
  {
    var d := Decide(u, g, q, now);
    FirstComplaint(u, g, q, now);
    if d.Failure? && d.error != reason {
      assert Rank(d.error) < Rank(reason) || Rank(reason) < Rank(d.error);
    }
  }

  lemma FirstComplaint(u: Suite, g: Gateway, q: Request, now: real)
    ensures
      var d := Decide(u, g, q, now);
      if d.Success? then forall r :: !Complaint(u, g, q, now, r)
      else Complaint(u, g, q, now, d.error) && forall r :: Rank(r) < Rank(d.error) ==> !Complaint(u, g, q, now, r)
  {
    assert q.publicKeyDer.Some? ==> q.publicKeyDer == Some(q.publicKeyDer.value);
    assert u.parseTime(q.timestamp).Some? ==> u.parseTime(q.timestamp) == Some(u.parseTime(q.timestamp).value);
  }

  function Enrolled(u: Suite, g: Gateway, q: Request, now: real): Gateway
  {
    var d := Decide(u, g, q, now);
    if d.Success? then g.(certStore := g.certStore[q.nodeId := d.value]) else g
  }

  function Revoked(g: Gateway, nodeId: string): Gateway { g.(revoked := g.revoked + {nodeId}) }

  /** pubkey_registry(): the keys of enrolled nodes that are not revoked. */
  function Registry(g: Gateway): map<string, bytes>
  {
    map n | n in g.certStore && n !in g.revoked :: g.certStore[n].publicKeyDer
  }

  /** Every certificate is filed under the hash of its own key. */
  ghost predicate CertificatesBound(u: Suite, g: Gateway)
  {
    forall n :: n in g.certStore ==>
      && g.certStore[n].nodeId == n == u.nodeIdOf(g.certStore[n].publicKeyDer)
      && u.loadKey(g.certStore[n].publicKeyDer) == Some(g.certStore[n].publicKeyDer)
  }

  /** The store only gains entries, and no entry changes; revocations are never taken back. */
  ghost predicate Grows(g: Gateway, g': Gateway)
  {
    && g.formationKey == g'.formationKey && g.skew == g'.skew
    && (forall n :: n in g.certStore ==> n in g'.certStore && g'.certStore[n] == g.certStore[n])
    && g.revoked <= g'.revoked
  }

  /** Enrollment never replaces a certificate, and files only a key whose hash is the node id: a proof
      captured from another node cannot put another key under that node's id. */
  lemma EnrollKeepsCertificatesBound(u: Suite, g: Gateway, q: Request, now: real)
    requires CertificatesBound(u, g)
    ensures CertificatesBound(u, Enrolled(u, g, q, now)) && Grows(g, Enrolled(u, g, q, now))
    ensures Decide(u, g, q, now).Failure? ==> Enrolled(u, g, q, now) == g
    ensures Decide(u, g, q, now).Success? ==>
      && q.nodeId !in g.certStore && q.nodeId !in g.revoked
      && Enrolled(u, g, q, now).certStore.Keys == g.certStore.Keys + {q.nodeId}
  {
  }

  /** A node that asks with its own key and the formation's key is admitted exactly when its clock is within
      the window, its claims are the locked ones, and its id is neither revoked nor already enrolled. */
  lemma HonestRequestAdmittedIff(u: Suite, g: Gateway, formationKey: bytes, key: bytes, timestamp: string,
                                 doctrineVersion: string, kernelCommit: string, slsaLevel: string, vendor: string,
                                 now: real)
    requires KeyLoads(u, key) && formationKey == g.formationKey
    ensures
      var id := u.nodeIdOf(u.publicKey(key));
      var q := BuildRequest(u, formationKey, id, u.publicKey(key), timestamp, doctrineVersion, kernelCommit, slsaLevel,
                            vendor);
      Decide(u, g, q, now).Success? <==>
        && u.parseTime(timestamp).Some? && Distance(now, u.parseTime(timestamp).value) <= g.skew
        && doctrineVersion == DOCTRINE_VERSION && kernelCommit == KERNEL_COMMIT && slsaLevel == SLSA_LEVEL
        && !u.covered(vendor) && id !in g.revoked && id !in g.certStore
  {
  }

  class FormationGateway {
    const suite: Suite
    const formationId: string
    const formationKey: bytes
    const skew: real
    var certStore: map<string, Certificate>
    var revoked: set<string>

    constructor (suite: Suite, formationId: string, formationKey: bytes, skew: real := 300.0)
      ensures this.suite == suite && this.formationId == formationId
      ensures State() == Gateway(formationKey, skew, map[], {})
    {
      this.suite := suite;
      this.formationId := formationId;
      this.formationKey := formationKey;
      this.skew := skew;
      certStore, revoked := map[], {};
    }

    function State(): Gateway
      reads this
    {
      Gateway(formationKey, skew, certStore, revoked)
    }

    method Revoke(nodeId: string)
      modifies this
      ensures State() == Revoked(old(State()), nodeId)
      ensures revoked == old(revoked) + {nodeId} && certStore == old(certStore)
    {
      revoked := revoked + {nodeId};
    }

    method Enroll(q: Request, now: real) returns (r: Result<Certificate, Rejection>)
      modifies this
      ensures r.Success? <==> Qualifies(suite, old(State()), q, now)
      ensures r == Decide(suite, old(State()), q, now)
      ensures State() == Enrolled(suite, old(State()), q, now)
      ensures revoked == old(revoked)
      ensures certStore == if r.Success? then old(certStore)[q.nodeId := r.value] else old(certStore)
    {
      var expected := FormationProof(suite, formationKey, q.nodeId, q.timestamp, q.doctrineVersion, q.kernelCommit);
      if expected != q.proof { return Failure(BAD_FORMATION_PROOF); }
      var time := suite.parseTime(q.timestamp);
      if time == None { return Failure(BAD_TIMESTAMP); }
      if Distance(now, time.value) > skew { return Failure(TIMESTAMP_OUT_OF_WINDOW); }
      if q.doctrineVersion != DOCTRINE_VERSION { return Failure(WRONG_DOCTRINE); }
      if q.kernelCommit != KERNEL_COMMIT { return Failure(WRONG_KERNEL); }
      if q.slsaLevel != SLSA_LEVEL { return Failure(WRONG_SLSA); }
      if q.nodeId in revoked { return Failure(REVOKED_NODE); }
      if !q.vendorExclusionConfirmed { return Failure(SECTION_889_NOT_CONFIRMED); }
      if suite.covered(q.hardwareVendor) { return Failure(SECTION_889_VIOLATION); }
      if q.nodeId in certStore { return Failure(DUPLICATE_NODE_ID); }
      if q.publicKeyDer == None || suite.loadKey(q.publicKeyDer.value) != q.publicKeyDer {
        return Failure(INVALID_PUBLIC_KEY);
      }
      if q.nodeId != suite.nodeIdOf(q.publicKeyDer.value) { return Failure(NODE_ID_KEY_MISMATCH); }
      var certificate := Certificate(q.nodeId, q.publicKeyDer.value, now, DOCTRINE_VERSION, KERNEL_COMMIT);
      certStore := certStore[q.nodeId := certificate];
      return Success(certificate);
    }
  }
}
