// The node runtime (szl_mesh.node): receipted writes, remote operations, local classification.
module Node {
  import opened Prelude
  import opened Crdt
  import opened Receipts
  import opened Enrollment

  /** What a node holds. `joined`: it has been given the gateway it enrolled with. */
  datatype NodeState = NodeState(docId: string, key: bytes, nodeId: string, ops: Log, ledger: map<string, Envelope>,
                                 enrolled: bool, joined: bool, lamport: nat)

  datatype NodeError = NotEnrolled | BadTransitionClass | WrongDocument

  /** What a write hands to its peers. */
  datatype Record = Record(body: Body, receipt: Option<Envelope>, changeHash: string, track: Track,
                           status: ReceiptStatus)

  datatype Applied = Applied(newlyAdded: bool, track: Track, status: ReceiptStatus)

  function NewNode(u: Suite, docId: string, key: bytes): NodeState
  {
    NodeState(docId, key, u.nodeIdOf(u.publicKey(key)), map[], map[], false, false, 0)
  }

  /** _classify: an unenrolled node has an empty registry, not implicit trust. */
  function Classify(u: Suite, joined: bool, g: Gateway, changeId: string, receipt: Option<Envelope>,
                    now: real): GateResult
  {
    var registry := if joined then Registry(g) else map[];
    var revoked := if joined then g.revoked else {};
    ValidateReceipt(u, receipt, changeId, now, revoked, CLOCK_SKEW_SECONDS, Some(registry))
  }

  function Enroll(u: Suite, s: NodeState, g: Gateway, formationKey: bytes, timestamp: string, doctrineVersion: string,
                  kernelCommit: string, slsaLevel: string, vendor: string, now: real): (NodeState, Gateway)
  {
    var q := BuildRequest(u, formationKey, s.nodeId, u.publicKey(s.key), timestamp, doctrineVersion, kernelCommit,
                          slsaLevel, vendor);
    if Decide(u, g, q, now).Success?
    then (s.(enrolled := true, joined := true), Enrolled(u, g, q, now))
    else (s, g)
  }

  function WrittenBody(s: NodeState, key: string, value: Value, deletion: bool): Body
  {
    Body(s.docId, key, value, s.lamport + 1, s.nodeId, deletion)
  }

  /** The node after it has stored a new operation, before it makes the receipt. */
  function Stored(u: Suite, s: NodeState, body: Body): NodeState
  {
    s.(lamport := s.lamport + 1, ops := Added(u.opId, s.ops, Op(body, OBSERVED)))
  }

  ghost function WriteStatement(u: Suite, s: NodeState, body: Body, transitionClass: string, stamp: int): Statement
    requires Keyed(u.opId, s.ops)
  {
    BuildStatement(s.docId, u.opId(body), Heads(u.opId, s.ops), Heads(u.opId, Stored(u, s, body).ops),
                   s.nodeId, transitionClass, stamp)
  }

  /** The node after it has classified an operation it holds, on the receipt it was given. */
  function Settled(u: Suite, s: NodeState, g: Gateway, id: string, receipt: Option<Envelope>, now: real): NodeState
  {
    s.(ledger := if receipt.Some? then s.ledger[id := receipt.value] else s.ledger,
       ops := Retracked(s.ops, id, Classify(u, s.joined, g, id, receipt, now).track))
  }

  /** write: an unknown transition class is noticed only after the operation has been stored. */
  ghost function Write(u: Suite, s: NodeState, g: Gateway, key: string, value: Value, transitionClass: string,
                       deletion: bool, stamp: int, now: real): (NodeState, Result<Record, NodeError>)
    requires Sane(u, s)
  {
    if !s.enrolled then (s, Failure(NotEnrolled))
    else
      var body := WrittenBody(s, key, value, deletion);
      var id, stored := u.opId(body), Stored(u, s, body);
      if transitionClass !in TRANSITION_CLASSES then (stored, Failure(BadTransitionClass))
      else
        var receipt := BuildReceipt(u, WriteStatement(u, s, body, transitionClass, stamp), s.key).value;
        var gate := Classify(u, s.joined, g, id, Some(receipt), now);
        (Settled(u, stored, g, id, Some(receipt), now),
         Success(Record(body, Some(receipt), id, gate.track, gate.status)))
  }

  /** apply_remote: the clock advances even when the operation turns out to be for another document. */
  function ApplyRemote(u: Suite, s: NodeState, g: Gateway, body: Body, receipt: Option<Envelope>, now: real)
    : (NodeState, Result<Applied, NodeError>)
  {
    var ticked := s.(lamport := Max(s.lamport, body.lamport) + 1);
    if body.docId != s.docId then (ticked, Failure(NodeError.WrongDocument))
    else
      var id := u.opId(body);
      var stored := ticked.(ops := Added(u.opId, s.ops, Op(body, OBSERVED)));
      var gate := Classify(u, s.joined, g, id, receipt, now);
      (Settled(u, stored, g, id, receipt, now), Success(Applied(id !in s.ops, gate.track, gate.status)))
  }

  /** Settling an operation authorizes it only on evidence, and never at a node that has not enrolled. */
  lemma SettledOnEvidence(u: Suite, s: NodeState, g: Gateway, id: string, receipt: Option<Envelope>, now: real)
    requires id in s.ops && Settled(u, s, g, id, receipt, now).ops[id].track == AUTHORIZED
    ensures s.joined && receipt.Some? && Settled(u, s, g, id, receipt, now).ledger[id] == receipt.value
    ensures Evidence(u, receipt.value, id, now, g.revoked, CLOCK_SKEW_SECONDS, Registry(g))
  {
    AuthorizedIffEvidence(u, receipt, id, now, if s.joined then g.revoked else {}, CLOCK_SKEW_SECONDS,
                          if s.joined then Registry(g) else map[]);
  }

  /** The second node holds the operation under this id, unless the id was taken, and else what the first one holds. */
  ghost predicate Holds(s: NodeState, t: NodeState, id: string, body: Body)
  {
    && t.docId == s.docId && t.key == s.key && t.nodeId == s.nodeId && t.enrolled == s.enrolled && t.joined == s.joined
    && t.ops.Keys == s.ops.Keys + {id} && (id !in s.ops ==> t.ops[id].body == body)
    && AlikeElsewhere(s.ops, t.ops, id)
  }

  /** What the first log holds the second holds too, except perhaps for the track under this id. */
  ghost predicate AlikeElsewhere(a: Log, b: Log, id: string)
    requires a.Keys <= b.Keys
  {
    forall i :: i in a ==> b[i].body == a[i].body && (i != id ==> b[i].track == a[i].track)
  }

  lemma StoredHolds(u: Suite, s: NodeState, body: Body)
    ensures Holds(s, Stored(u, s, body), u.opId(body), body)
    ensures u.opId(body) !in s.ops ==> Stored(u, s, body).ops[u.opId(body)].track == OBSERVED
  {
  }

  lemma SettledHolds(u: Suite, s: NodeState, stored: NodeState, g: Gateway, id: string, body: Body,
                     receipt: Option<Envelope>, now: real)
    requires Holds(s, stored, id, body)
    ensures
      var t := Settled(u, stored, g, id, receipt, now);
      && Holds(s, t, id, body) && t.lamport == stored.lamport
      && t.ops[id].track == Classify(u, s.joined, g, id, receipt, now).track
      && t.ledger == if receipt.Some? then stored.ledger[id := receipt.value] else stored.ledger
  {
  }

  /** A remote operation, field by field: it is kept, with its receipt if it has one, and is authorized here exactly
      when this node has joined and the receipt is evidence. */
  lemma RemoteExact(u: Suite, s: NodeState, g: Gateway, body: Body, receipt: Option<Envelope>, now: real)
    ensures
      var (t, r) := ApplyRemote(u, s, g, body, receipt, now);
      var id := u.opId(body);
      && t.lamport > s.lamport && t.lamport > body.lamport
      && (t.lamport == s.lamport + 1 || t.lamport == body.lamport + 1)
      && if body.docId != s.docId then t == s.(lamport := t.lamport) && r == Failure(NodeError.WrongDocument)
         else
           && r.Success? && (r.value.newlyAdded <==> id !in s.ops) && Holds(s, t, id, body)
           && t.ops[id].track == r.value.track
           && r.value.track == (if s.joined && receipt.Some? && Evidence(u, receipt.value, id, now, g.revoked,
                CLOCK_SKEW_SECONDS, Registry(g)) then AUTHORIZED else OBSERVED)
           && t.ledger == (if receipt.Some? then s.ledger[id := receipt.value] else s.ledger)
  {
    var id, stored := u.opId(body), s.(lamport := Max(s.lamport, body.lamport) + 1,
                                       ops := Added(u.opId, s.ops, Op(body, OBSERVED)));
    if body.docId == s.docId {
      assert Holds(s, stored, id, body);
      SettledHolds(u, s, stored, g, id, body, receipt, now);
    }
    ClassifiedOnEvidence(u, s.joined, g, id, receipt, now);
  }

  /** Why: a joined node reports the gate's status for its gateway's registry, any other for an empty one. A revoked
      signer's key is not in the registry, so it is refused for its signature, and no node reports a revocation. */
  lemma ClassifiedWithStatus(u: Suite, joined: bool, g: Gateway, id: string, receipt: Option<Envelope>, now: real)
    ensures
      var status := Classify(u, joined, g, id, receipt, now).status;
      && Fits(u, status, receipt, id, now, if joined then g.revoked else {}, CLOCK_SKEW_SECONDS,
              Some(if joined then Registry(g) else map[]))
      && status != RECEIPT_REVOKED
  {
    StatusExact(u, receipt, id, now, if joined then g.revoked else {}, CLOCK_SKEW_SECONDS,
                Some(if joined then Registry(g) else map[]));
  }

  /** What a node reports of a write, and of a remote operation, is that status. */
  lemma WriteStatusReported(u: Suite, s: NodeState, g: Gateway, key: string, value: Value, transitionClass: string,
                            deletion: bool, stamp: int, now: real)
    requires Sane(u, s) && s.enrolled && transitionClass in TRANSITION_CLASSES
    ensures
      var r := Write(u, s, g, key, value, transitionClass, deletion, stamp, now).1;
      && r.Success?
      && Fits(u, r.value.status, r.value.receipt, r.value.changeHash, now, if s.joined then g.revoked else {},
              CLOCK_SKEW_SECONDS, Some(if s.joined then Registry(g) else map[]))
  {
    var r := Write(u, s, g, key, value, transitionClass, deletion, stamp, now).1.value;
    ClassifiedWithStatus(u, s.joined, g, r.changeHash, r.receipt, now);
  }

  lemma StatusReported(u: Suite, s: NodeState, g: Gateway, body: Body, receipt: Option<Envelope>, now: real)
    requires body.docId == s.docId
    ensures
      var status := ApplyRemote(u, s, g, body, receipt, now).1.value.status;
      && Fits(u, status, receipt, u.opId(body), now, if s.joined then g.revoked else {}, CLOCK_SKEW_SECONDS,
              Some(if s.joined then Registry(g) else map[]))
      && status != RECEIPT_REVOKED
  {
    ClassifiedWithStatus(u, s.joined, g, u.opId(body), receipt, now);
  }

  lemma ClassifiedOnEvidence(u: Suite, joined: bool, g: Gateway, id: string, receipt: Option<Envelope>, now: real)
    ensures Classify(u, joined, g, id, receipt, now).track ==
      if joined && receipt.Some? && Evidence(u, receipt.value, id, now, g.revoked, CLOCK_SKEW_SECONDS, Registry(g))
      then AUTHORIZED else OBSERVED
  {
    AuthorizedIffEvidence(u, receipt, id, now, if joined then g.revoked else {}, CLOCK_SKEW_SECONDS,
                          if joined then Registry(g) else map[]);
  }

  /** A write, field by field: the operation is stored under the clock's next reading even when the transition class is
      unknown; only otherwise is there a receipt, and a verdict of the gate. */
  lemma WriteExact(u: Suite, s: NodeState, g: Gateway, key: string, value: Value, transitionClass: string,
                   deletion: bool, stamp: int, now: real)
    requires Sane(u, s)
    ensures
      var (t, r) := Write(u, s, g, key, value, transitionClass, deletion, stamp, now);
      var body := Body(s.docId, key, value, s.lamport + 1, s.nodeId, deletion);
      if !s.enrolled then t == s && r == Failure(NotEnrolled)
      else
        && (r.Failure? <==> transitionClass !in TRANSITION_CLASSES) && (r.Failure? ==> r.error == BadTransitionClass)
        && t.lamport == s.lamport + 1 && Holds(s, t, u.opId(body), body)
        && (r.Failure? ==> t.ledger == s.ledger && (u.opId(body) !in s.ops ==> t.ops[u.opId(body)].track == OBSERVED))
        && (r.Success? ==>
            && r.value.body == body && r.value.changeHash == u.opId(body) && r.value.receipt.Some?
            && t.ledger == s.ledger[u.opId(body) := r.value.receipt.value]
            && t.ops[u.opId(body)].track == r.value.track == (if Evidence(u, r.value.receipt.value, u.opId(body), now,
                 g.revoked, CLOCK_SKEW_SECONDS, Registry(g)) then AUTHORIZED else OBSERVED))
  {
    if s.enrolled {
      var body := WrittenBody(s, key, value, deletion);
      StoredHolds(u, s, body);
      if transitionClass in TRANSITION_CLASSES {
        var receipt := BuildReceipt(u, WriteStatement(u, s, body, transitionClass, stamp), s.key).value;
        SettledHolds(u, s, Stored(u, s, body), g, u.opId(body), body, Some(receipt), now);
        ClassifiedOnEvidence(u, s.joined, g, u.opId(body), Some(receipt), now);
      }
    }
  }

  // ---- what a single node keeps ----

  /** The log is keyed by content; every operation is visible and no newer than the node's clock. */
  ghost predicate Sane(u: Suite, s: NodeState)
  {
    && s.nodeId == u.nodeIdOf(u.publicKey(s.key))
    && Keyed(u.opId, s.ops)
    && AllVisible(s.ops)
    && (s.enrolled ==> s.joined)
    && forall i :: i in s.ops ==> s.ops[i].body.docId == s.docId && s.ops[i].body.lamport <= s.lamport
  }

  ghost predicate AllSane(u: Suite, nodes: seq<NodeState>)
  {
    forall n :: 0 <= n < |nodes| ==> Sane(u, nodes[n])
  }

  lemma StoringKeepsSane(u: Suite, s: NodeState, clock: nat, body: Body)
    requires Sane(u, s) && s.lamport <= clock && body.lamport <= clock && body.docId == s.docId
    ensures Sane(u, s.(lamport := clock, ops := Added(u.opId, s.ops, Op(body, OBSERVED))))
  {
  }

  lemma SettlingKeepsSane(u: Suite, s: NodeState, g: Gateway, id: string, receipt: Option<Envelope>, now: real)
    requires Sane(u, s)
    ensures Sane(u, Settled(u, s, g, id, receipt, now))
  {
  }

  lemma WriteKeepsSane(u: Suite, s: NodeState, g: Gateway, key: string, value: Value, transitionClass: string,
                       deletion: bool, stamp: int, now: real)
    requires Sane(u, s)
    ensures Sane(u, Write(u, s, g, key, value, transitionClass, deletion, stamp, now).0)
  {
    if s.enrolled {
      var body := WrittenBody(s, key, value, deletion);
      StoringKeepsSane(u, s, s.lamport + 1, body);
      if transitionClass in TRANSITION_CLASSES {
        var receipt := BuildReceipt(u, WriteStatement(u, s, body, transitionClass, stamp), s.key).value;
        SettlingKeepsSane(u, Stored(u, s, body), g, u.opId(body), Some(receipt), now);
      }
    }
  }

  lemma ApplyKeepsSane(u: Suite, s: NodeState, g: Gateway, body: Body, receipt: Option<Envelope>, now: real)
    requires Sane(u, s)
    ensures Sane(u, ApplyRemote(u, s, g, body, receipt, now).0)
  {
    var clock := Max(s.lamport, body.lamport) + 1;
    if body.docId == s.docId {
      StoringKeepsSane(u, s, clock, body);
      SettlingKeepsSane(u, s.(lamport := clock, ops := Added(u.opId, s.ops, Op(body, OBSERVED))), g, u.opId(body),
        receipt, now);
    }
  }

  /** Neither writing nor receiving loses an operation or alters one. */
  ghost predicate OpsGrow(a: Log, b: Log)
  {
    forall i :: i in a ==> i in b && b[i].body == a[i].body
  }

  /** Read your writes: the observed view then maps the key to the value, or omits it after a deletion,
      unless the new operation's id collides with that of a different operation held already. */
  lemma ReadYourWrites(u: Suite, s: NodeState, g: Gateway, key: string, value: Value, transitionClass: string,
                       deletion: bool, stamp: int, now: real)
    requires Sane(u, s) && s.enrolled
    ensures
      var body := WrittenBody(s, key, value, deletion);
      var after := Write(u, s, g, key, value, transitionClass, deletion, stamp, now).0;
      && OpsGrow(s.ops, after.ops) && Keyed(u.opId, after.ops)
      && (if u.opId(body) in s.ops
          then s.ops[u.opId(body)].body != body
          else
            var view := View(u.opId, after.ops, VISIBLE);
            if deletion then key !in view else key in view && view[key] == value)
  {
    var body := WrittenBody(s, key, value, deletion);
    var after := Write(u, s, g, key, value, transitionClass, deletion, stamp, now).0;
    WriteKeepsSane(u, s, g, key, value, transitionClass, deletion, stamp, now);
    if u.opId(body) !in s.ops {
      LatestWins(u.opId, after.ops, VISIBLE, u.opId(body));
    }
  }

  /** Causality: what a node writes while holding an operation is ordered after that operation,
      so it decides a key they share on every replica that holds both. */
  lemma WriteSupersedesHeld(u: Suite, s: NodeState, key: string, value: Value, deletion: bool, i: string)
    requires Sane(u, s) && i in s.ops
    ensures Before(u.opId, s.ops[i].body, WrittenBody(s, key, value, deletion))
  {
  }

  lemma SupersededLoses(h: Hash, replica: Log, tracks: set<Track>, old_: string, new_: string)
    requires Keyed(h, replica) && old_ in replica && new_ in replica
    requires replica[old_].body.key == replica[new_].body.key && replica[new_].track in tracks
    requires Before(h, replica[old_].body, replica[new_].body)
    ensures
      var k := replica[old_].body.key;
      k in KeysOf(replica, tracks) && Winner(h, replica, tracks, k) != old_
  {
    var k := replica[old_].body.key;
    assert k in KeysOf(replica, tracks);
    assert new_ in Candidates(replica, tracks, k);
    BeforeIrreflexive(h, replica[old_].body);
    if Winner(h, replica, tracks, k) == old_ {
      BeforeTransitive(h, replica[old_].body, replica[new_].body, replica[old_].body);
    }
  }

  /** The receipt that a write makes. */
  ghost function WriteReceipt(u: Suite, s: NodeState, key: string, value: Value, transitionClass: string,
                              deletion: bool, stamp: int): Option<Envelope>
    requires Sane(u, s)
  {
    var stmt := WriteStatement(u, s, WrittenBody(s, key, value, deletion), transitionClass, stamp);
    Some(BuildReceipt(u, stmt, s.key).value)
  }

  /** The receipt speaks of the heads before and after the write, as they then are. */
  lemma WriteReceiptHeads(u: Suite, s: NodeState, g: Gateway, key: string, value: Value, transitionClass: string,
                          deletion: bool, stamp: int, now: real)
    requires Sane(u, s) && s.enrolled && transitionClass in TRANSITION_CLASSES && KeyWorks(u, s.key)
    requires ReadsBack(u, WriteStatement(u, s, WrittenBody(s, key, value, deletion), transitionClass, stamp))
    ensures
      var receipt := WriteReceipt(u, s, key, value, transitionClass, deletion, stamp).value;
      var after := Write(u, s, g, key, value, transitionClass, deletion, stamp, now).0;
      && DecodeStatement(u, receipt).Some? && Keyed(u.opId, after.ops)
      && DecodeStatement(u, receipt).value == Statement(
           Some(DOCTRINE_VERSION), Some(KERNEL_COMMIT), s.docId,
           Some(u.opId(Body(s.docId, key, value, s.lamport + 1, s.nodeId, deletion))), Heads(u.opId, s.ops),
           Heads(u.opId, after.ops), transitionClass, Some(s.nodeId), Some(stamp), Some(SECTION_889_VENDORS))
  {
    var body := WrittenBody(s, key, value, deletion);
    BuiltReceiptVerifies(u, WriteStatement(u, s, body, transitionClass, stamp), s.key);
    WriteKeepsSane(u, s, g, key, value, transitionClass, deletion, stamp, now);
    ObservedIgnoresClassification(u.opId, Stored(u, s, body).ops,
                                  Write(u, s, g, key, value, transitionClass, deletion, stamp, now).0.ops);
  }

  /** The write keeps its receipt, which is authorized exactly when the writer's certificate is registered and the
      gate's clock is close to the statement's. */
  lemma WriteReceiptAuthorizedIff(u: Suite, s: NodeState, g: Gateway, key: string, value: Value,
                                  transitionClass: string, deletion: bool, stamp: int, now: real)
    requires Sane(u, s) && s.enrolled && transitionClass in TRANSITION_CLASSES && KeyWorks(u, s.key)
    requires ReadsBack(u, WriteStatement(u, s, WrittenBody(s, key, value, deletion), transitionClass, stamp))
    ensures
      var r := Write(u, s, g, key, value, transitionClass, deletion, stamp, now);
      && r.1.Success? && r.1.value.receipt == WriteReceipt(u, s, key, value, transitionClass, deletion, stamp)
      && r.0.ledger[r.1.value.changeHash] == r.1.value.receipt.value
      && (r.1.value.track == AUTHORIZED <==>
          && s.nodeId in g.certStore && g.certStore[s.nodeId].publicKeyDer == u.publicKey(s.key)
          && s.nodeId !in g.revoked && -CLOCK_SKEW_SECONDS <= now - stamp as real <= CLOCK_SKEW_SECONDS)
  {
    var body := WrittenBody(s, key, value, deletion);
    ReceiptIsEvidenceIff(u, s, g, key, value, transitionClass, deletion, stamp, now);
    ClassifiedOnEvidence(u, s.joined, g, u.opId(body),
                         WriteReceipt(u, s, key, value, transitionClass, deletion, stamp), now);
  }

  /** End to end: what a node wrote is authorized at a peer that is handed its record, whatever that peer holds and
      whenever it arrives, exactly when the peer has joined, its gateway has the writer's key on file and unrevoked, and
      the peer's clock is within the window of the writer's. */
  lemma AuthorizedAtPeerIff(u: Suite, s: NodeState, g: Gateway, key: string, value: Value, transitionClass: string,
                            deletion: bool, stamp: int, now: real, peer: NodeState, g': Gateway, now': real)
    requires Sane(u, s) && s.enrolled && transitionClass in TRANSITION_CLASSES && KeyWorks(u, s.key)
    requires ReadsBack(u, WriteStatement(u, s, WrittenBody(s, key, value, deletion), transitionClass, stamp))
    requires peer.docId == s.docId
    ensures
      var w := Write(u, s, g, key, value, transitionClass, deletion, stamp, now).1;
      && w.Success?
      && var (t, r) := ApplyRemote(u, peer, g', w.value.body, w.value.receipt, now');
      && r.Success? && w.value.changeHash in t.ops && t.ops[w.value.changeHash].track == r.value.track
      && (r.value.track == AUTHORIZED <==>
          && peer.joined && s.nodeId in g'.certStore && g'.certStore[s.nodeId].publicKeyDer == u.publicKey(s.key)
          && s.nodeId !in g'.revoked && -CLOCK_SKEW_SECONDS <= now' - stamp as real <= CLOCK_SKEW_SECONDS)
  {
    var body := WrittenBody(s, key, value, deletion);
    WriteExact(u, s, g, key, value, transitionClass, deletion, stamp, now);
    var receipt := WriteReceipt(u, s, key, value, transitionClass, deletion, stamp);
    RemoteExact(u, peer, g', body, receipt, now');
    ReceiptIsEvidenceIff(u, s, g', key, value, transitionClass, deletion, stamp, now');
  }

  /** The receipt of a write is evidence to a gateway exactly under these conditions. */
  lemma ReceiptIsEvidenceIff(u: Suite, s: NodeState, g: Gateway, key: string, value: Value, transitionClass: string,
                             deletion: bool, stamp: int, now: real)
    requires Sane(u, s) && KeyWorks(u, s.key)
    requires ReadsBack(u, WriteStatement(u, s, WrittenBody(s, key, value, deletion), transitionClass, stamp))
    ensures
      var receipt := WriteReceipt(u, s, key, value, transitionClass, deletion, stamp).value;
      var id := u.opId(WrittenBody(s, key, value, deletion));
      Evidence(u, receipt, id, now, g.revoked, CLOCK_SKEW_SECONDS, Registry(g)) <==>
        && s.nodeId in g.certStore && g.certStore[s.nodeId].publicKeyDer == u.publicKey(s.key)
        && s.nodeId !in g.revoked && -CLOCK_SKEW_SECONDS <= now - stamp as real <= CLOCK_SKEW_SECONDS
  {
    var stmt := WriteStatement(u, s, WrittenBody(s, key, value, deletion), transitionClass, stamp);
    BuiltReceiptVerifies(u, stmt, s.key);
    VerifiesIffSigned(u, BuildReceipt(u, stmt, s.key).value);
  }

  // ---- the operations a node holds ----

  /** op_id tells these operations apart. */
  ghost predicate Injective(h: Hash, bodies: set<Body>)
  {
    forall a, b :: a in bodies && b in bodies && h(a) == h(b) ==> a == b
  }

  function Bodies(ops: Log): set<Body>
  {
    set i | i in ops :: ops[i].body
  }

  lemma AddedBodies(h: Hash, ops: Log, body: Body)
    requires Keyed(h, ops) && Injective(h, Bodies(ops) + {body})
    ensures Bodies(Added(h, ops, Op(body, OBSERVED))) == Bodies(ops) + {body}
  {
    var next := Added(h, ops, Op(body, OBSERVED));
    if h(body) in ops {
      assert ops[h(body)].body in Bodies(ops);
    } else {
      assert next[h(body)].body == body;
      forall b | b in Bodies(ops) ensures b in Bodies(next) {
        var i :| i in ops && ops[i].body == b;
        assert next[i].body == b;
      }
    }
  }

  lemma RetrackedBodies(a: Log, b: Log)
    requires SameBodies(a, b)
    ensures Bodies(a) == Bodies(b)
  {
    forall x | x in Bodies(a) ensures x in Bodies(b) {
      var i :| i in a && a[i].body == x;
      assert b[i].body == x;
    }
    forall x | x in Bodies(b) ensures x in Bodies(a) {
      var i :| i in b && b[i].body == x;
      assert a[i].body == x;
    }
  }

  lemma BodiesDetermineLog(h: Hash, a: Log, b: Log)
    requires Keyed(h, a) && Keyed(h, b) && Bodies(a) == Bodies(b)
    ensures SameBodies(a, b)
  {
    forall i | i in a ensures i in b && a[i].body == b[i].body { assert a[i].body in Bodies(b); }
    forall i | i in b ensures i in a { assert b[i].body in Bodies(a); }
  }

  lemma ApplyBodies(u: Suite, s: NodeState, g: Gateway, body: Body, receipt: Option<Envelope>, now: real)
    requires Sane(u, s) && body.docId == s.docId && Injective(u.opId, Bodies(s.ops) + {body})
    ensures Bodies(ApplyRemote(u, s, g, body, receipt, now).0.ops) == Bodies(s.ops) + {body}
  {
    AddedBodies(u.opId, s.ops, body);
    RetrackedBodies(Added(u.opId, s.ops, Op(body, OBSERVED)), ApplyRemote(u, s, g, body, receipt, now).0.ops);
  }

  lemma WriteBodies(u: Suite, s: NodeState, g: Gateway, key: string, value: Value, transitionClass: string,
                    deletion: bool, stamp: int, now: real)
    requires Sane(u, s) && s.enrolled && Injective(u.opId, Bodies(s.ops) + {WrittenBody(s, key, value, deletion)})
    ensures Bodies(Write(u, s, g, key, value, transitionClass, deletion, stamp, now).0.ops)
      == Bodies(s.ops) + {WrittenBody(s, key, value, deletion)}
  {
    var body := WrittenBody(s, key, value, deletion);
    AddedBodies(u.opId, s.ops, body);
    RetrackedBodies(Stored(u, s, body).ops, Write(u, s, g, key, value, transitionClass, deletion, stamp, now).0.ops);
  }

  class MeshNode {
    const suite: Suite
    const name: string
    const docId: string
    const key: bytes
    const nodeId: string
    const doc: CRDTDocument
    var receiptLedger: map<string, Envelope>
    var enrolled: bool
    var gateway: FormationGateway?
    var lamport: nat

    ghost predicate Valid()
      reads this, doc
    {
      && doc.Valid() && doc.opId == suite.opId && doc.docId == docId
      && Sane(suite, State())
    }

    ghost function State(): NodeState
      reads this, doc
    {
      NodeState(docId, key, nodeId, doc.ops, receiptLedger, enrolled, gateway != null, lamport)
    }

    /** The state of the gateway this node classifies by; irrelevant until it has one. */
    ghost function GatewayState(): Gateway
      reads this, gateway
    {
      if gateway != null then gateway.State() else Gateway([], 0.0, map[], {})
    }

    constructor (suite: Suite, name: string, docId: string, key: bytes)
      ensures Valid() && fresh(doc) && State() == NewNode(suite, docId, key) && this.suite == suite && this.name == name
    {
      this.suite := suite;
      this.name := name;
      this.docId := docId;
      this.key := key;
      nodeId := suite.nodeIdOf(suite.publicKey(key));
      doc := new CRDTDocument(suite.opId, docId);
      receiptLedger, enrolled, gateway, lamport := map[], false, null, 0;
    }

    method EnrollWith(g: FormationGateway, formationKey: bytes, timestamp: string, doctrineVersion: string,
                      kernelCommit: string, slsaLevel: string, vendor: string, now: real)
      returns (r: Result<Certificate, Rejection>)
      requires Valid() && g.suite == suite
      modifies this`enrolled, this`gateway, g
      ensures Valid()
      ensures (State(), g.State()) ==
        Enroll(suite, old(State()), old(g.State()), formationKey, timestamp, doctrineVersion, kernelCommit, slsaLevel,
               vendor, now)
      ensures gateway == if r.Success? then g else old(gateway)
    {
      var q := BuildRequest(suite, formationKey, nodeId, suite.publicKey(key), timestamp, doctrineVersion, kernelCommit,
                            slsaLevel, vendor);
      r := g.Enroll(q, now);
      if r.Success? {
        enrolled := true;
        gateway := g;
      }
    }

    method Tick(observed: Option<int>) returns (clock: nat)
      modifies this`lamport
      ensures clock == lamport == (if observed.Some? then Max(old(lamport), observed.value) else old(lamport)) + 1
    {
      var base: int := lamport;
      if observed.Some? { base := Max(base, observed.value); }
      lamport := base + 1;
      return lamport;
    }

    method RunGate(id: string, receipt: Option<Envelope>, now: real) returns (r: GateResult)
      ensures r == Classify(suite, gateway != null, GatewayState(), id, receipt, now)
    {
      var registry: map<string, bytes>, revoked: set<string> := map[], {};
      if gateway != null {
        registry := Registry(gateway.State());
        revoked := gateway.revoked;
      }
      r := ValidateReceipt(suite, receipt, id, now, revoked, CLOCK_SKEW_SECONDS, Some(registry));
    }

    /** Stores the receipt and sets the track the gate decides. */
    method Settle(id: string, receipt: Option<Envelope>, now: real) returns (gate: GateResult)
      requires Valid()
      modifies this`receiptLedger, doc
      ensures Valid()
      ensures gate == Classify(suite, gateway != null, GatewayState(), id, receipt, now)
      ensures State() == Settled(suite, old(State()), GatewayState(), id, receipt, now)
    {
      if receipt.Some? {
        receiptLedger := receiptLedger[id := receipt.value];
      }
      gate := RunGate(id, receipt, now);
      doc.SetOpTrack(id, gate.track);
    }

    /** Stores a new operation and reads the heads before and after it. */
    method StoreOp(key: string, value: Value, deletion: bool)
      returns (body: Body, fromHeads: seq<string>, toHeads: seq<string>)
      requires Valid()
      modifies this`lamport, doc
      ensures Valid()
      ensures body == WrittenBody(old(State()), key, value, deletion)
      ensures State() == Stored(suite, old(State()), body)
      ensures fromHeads == old(Heads(suite.opId, doc.ops)) && toHeads == Heads(suite.opId, doc.ops)
    {
      ghost var before := State();
      fromHeads := doc.CurrentHeads();
      var clock := Tick(None);
      body := Body(docId, key, value, clock, nodeId, deletion);
      StoringKeepsSane(suite, before, clock, body);
      var _ := doc.AddOp(Op(body, OBSERVED));
      assert State() == Stored(suite, before, body);
      toHeads := doc.CurrentHeads();
    }

    method WriteOp(key: string, value: Value, transitionClass: string, deletion: bool, stamp: int, now: real)
      returns (r: Result<Record, NodeError>)
      requires Valid()
      modifies this`receiptLedger, this`lamport, doc
      ensures Valid()
      ensures (State(), r)
        == Write(suite, old(State()), old(GatewayState()), key, value, transitionClass, deletion, stamp, now)
    {
      if !enrolled { return Failure(NotEnrolled); }
      var body, fromHeads, toHeads := StoreOp(key, value, deletion);
      var changeHash := suite.opId(body);
      if transitionClass !in TRANSITION_CLASSES { return Failure(BadTransitionClass); }
      var stmt := BuildStatement(docId, changeHash, fromHeads, toHeads, nodeId, transitionClass, stamp);
      var envelope := BuildReceipt(suite, stmt, this.key).value;
      var gate := Settle(changeHash, Some(envelope), now);
      return Success(Record(body, Some(envelope), changeHash, gate.track, gate.status));
    }

    method Receive(body: Body, receipt: Option<Envelope>, now: real) returns (r: Result<Applied, NodeError>)
      requires Valid()
      modifies this`receiptLedger, this`lamport, doc
      ensures Valid()
      ensures (State(), r) == ApplyRemote(suite, old(State()), old(GatewayState()), body, receipt, now)
    {
      var _ := Tick(Some(body.lamport));
      var newly := doc.AddOp(Op(body, OBSERVED));
      if newly.Failure? { return Failure(NodeError.WrongDocument); }
      var gate := Settle(suite.opId(body), receipt, now);
      return Success(Applied(newly.value, gate.track, gate.status));
    }

    ghost function TrackView(track: Track): map<string, Value>
      reads this, doc
      requires Valid()
    {
      View(suite.opId, doc.ops, if track == AUTHORIZED then {AUTHORIZED} else VISIBLE)
    }

    /** The view whose digest is the node's state digest for a track. */
    method StateView(track: Track) returns (view: map<string, Value>)
      requires Valid()
      ensures view == TrackView(track)
      ensures view == View(suite.opId, doc.ops, if track == AUTHORIZED then {AUTHORIZED} else {AUTHORIZED, OBSERVED})
    {
      if track == AUTHORIZED {
        view := doc.AuthorizedView();
      } else {
        view := doc.ObservedView();
      }
    }
  }
}
