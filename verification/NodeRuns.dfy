// Runs of a formation: nodes that share a gateway, write, and are handed operations in any order, with any receipts.
module NodeRuns {
  import opened Prelude
  import opened Crdt
  import opened Receipts
  import opened Enrollment
  import opened Node

  datatype World = World(gateway: Gateway, nodes: seq<NodeState>)

  datatype Event =
    | NodeEnrolls(n: nat, formationKey: bytes, timestamp: string, doctrineVersion: string, kernelCommit: string,
                  slsaLevel: string, vendor: string, now: real)
    | OutsiderEnrolls(request: Request, now: real)
    | Revokes(nodeId: string)
    | Writes(n: nat, key: string, value: Value, transitionClass: string, deletion: bool, stamp: int, now: real)
    | Receives(n: nat, body: Body, receipt: Option<Envelope>, now: real)

  ghost predicate Genesis(u: Suite, w: World)
    ensures Genesis(u, w) ==> AllSane(u, w.nodes)
  {
    && w.gateway.certStore == map[]
    && forall n :: 0 <= n < |w.nodes| ==> w.nodes[n] == NewNode(u, w.nodes[n].docId, w.nodes[n].key)
  }

  ghost function Step(u: Suite, w: World, e: Event): World
    requires AllSane(u, w.nodes)
  {
    match e
    case NodeEnrolls(n, formationKey, timestamp, doctrineVersion, kernelCommit, slsaLevel, vendor, now) =>
      if n >= |w.nodes| then w
      else
        var r := Enroll(u, w.nodes[n], w.gateway, formationKey, timestamp, doctrineVersion, kernelCommit, slsaLevel,
                        vendor, now);
        World(r.1, w.nodes[n := r.0])
    case OutsiderEnrolls(request, now) => w.(gateway := Enrolled(u, w.gateway, request, now))
    case Revokes(nodeId) => w.(gateway := Revoked(w.gateway, nodeId))
    case Writes(n, key, value, transitionClass, deletion, stamp, now) =>
      if n >= |w.nodes| then w
      else
        var r := Write(u, w.nodes[n], w.gateway, key, value, transitionClass, deletion, stamp, now);
        w.(nodes := w.nodes[n := r.0])
    case Receives(n, body, receipt, now) =>
      if n >= |w.nodes| then w
      else w.(nodes := w.nodes[n := ApplyRemote(u, w.nodes[n], w.gateway, body, receipt, now).0])
  }

  lemma StepKeepsSane(u: Suite, w: World, e: Event)
    requires AllSane(u, w.nodes)
    ensures AllSane(u, Step(u, w, e).nodes)
  {
    match e
    case Writes(n, key, value, transitionClass, deletion, stamp, now) =>
      if n < |w.nodes| { WriteKeepsSane(u, w.nodes[n], w.gateway, key, value, transitionClass, deletion, stamp, now); }
    case Receives(n, body, receipt, now) =>
      if n < |w.nodes| { ApplyKeepsSane(u, w.nodes[n], w.gateway, body, receipt, now); }
    case _ =>
  }

  /** The world after the events so far. */
  ghost function Run(u: Suite, w: World, events: seq<Event>): (r: World)
    requires AllSane(u, w.nodes)
    ensures AllSane(u, r.nodes) && |r.nodes| == |w.nodes|
  {
    if events == [] then w
    else
      var before := Run(u, w, events[..|events| - 1]);
      StepKeepsSane(u, before, events[|events| - 1]);
      Step(u, before, events[|events| - 1])
  }

  // ---- authorization is always backed by evidence ----

  /** Event e makes node n classify the operation with this id. */
  predicate Classifies(u: Suite, w: World, e: Event, n: nat, id: string)
    requires n < |w.nodes|
  {
    match e
    case Writes(m, key, value, transitionClass, deletion, _, _) =>
      && m == n && w.nodes[n].enrolled && transitionClass in TRANSITION_CLASSES
      && u.opId(WrittenBody(w.nodes[n], key, value, deletion)) == id
    case Receives(m, body, _, _) => m == n && body.docId == w.nodes[n].docId && u.opId(body) == id
    case _ => false
  }

  /** Event e brings evidence for id to node n, which has joined, in the receipt that the node holds afterwards. */
  ghost predicate FindsEvidence(u: Suite, w: World, e: Event, n: nat, id: string)
    requires AllSane(u, w.nodes) && n < |w.nodes|
  {
    var ledger := Step(u, w, e).nodes[n].ledger;
    && Classifies(u, w, e, n, id) && w.nodes[n].joined && (e.Receives? ==> e.receipt.Some?)
    && id in ledger && (e.Writes? || e.Receives?)
    && Evidence(u, ledger[id], id, e.now, w.gateway.revoked, CLOCK_SKEW_SECONDS, Registry(w.gateway))
  }

  /** Event k was node n's latest classification of id; it found evidence, in the receipt n still holds. */
  ghost predicate BackedAt(u: Suite, w: World, events: seq<Event>, n: nat, id: string, k: nat)
    requires AllSane(u, w.nodes) && k < |events| && n < |w.nodes|
  {
    var past := Run(u, w, events[..k]);
    var found, held := Step(u, past, events[k]).nodes[n].ledger, Run(u, w, events).nodes[n].ledger;
    && FoundAt(u, w, events, n, id, k)
    && id in held && held[id] == found[id] && LastClassified(u, w, events, n, id, k)
  }

  /** No event after k makes node n classify the operation. */
  ghost predicate LastClassified(u: Suite, w: World, events: seq<Event>, n: nat, id: string, k: nat)
    requires AllSane(u, w.nodes) && n < |w.nodes|
  {
    forall j :: k < j < |events| ==> !Classifies(u, Run(u, w, events[..j]), events[j], n, id)
  }

  ghost predicate Authorizes(u: Suite, w: World, n: nat, id: string)
    requires n < |w.nodes|
  {
    id in w.nodes[n].ops && w.nodes[n].ops[id].track == AUTHORIZED
  }

  /** An event that classifies an operation authorizes it exactly on evidence; any other leaves the verdict as it is. */
  lemma StepAuthorizesIff(u: Suite, w: World, e: Event, n: nat, id: string)
    requires AllSane(u, w.nodes) && n < |w.nodes|
    ensures Authorizes(u, Step(u, w, e), n, id) <==>
      if Classifies(u, w, e, n, id) then FindsEvidence(u, w, e, n, id) else Authorizes(u, w, n, id)
  {
    var s := w.nodes[n];
    if Classifies(u, w, e, n, id) {
      match e
      case Writes(_, key, value, transitionClass, deletion, stamp, now) =>
        WriteExact(u, s, w.gateway, key, value, transitionClass, deletion, stamp, now);
      case Receives(_, body, receipt, now) => RemoteExact(u, s, w.gateway, body, receipt, now);
    } else {
      if id in s.ops { StepKeepsOps(u, w, e, n, id); }
      if id in Step(u, w, e).nodes[n].ops { StepKeepsTrack(u, w, e, n, id); }
    }
  }

  lemma StepKeepsOps(u: Suite, w: World, e: Event, n: nat, id: string)
    requires AllSane(u, w.nodes) && n < |w.nodes| && id in w.nodes[n].ops
    ensures id in Step(u, w, e).nodes[n].ops
  {
    var s := w.nodes[n];
    match e
    case Writes(m, key, value, transitionClass, deletion, stamp, now) =>
      if m == n { WriteExact(u, s, w.gateway, key, value, transitionClass, deletion, stamp, now); }
    case Receives(m, body, receipt, now) =>
      if m == n { RemoteExact(u, s, w.gateway, body, receipt, now); }
    case _ =>
  }

  /** Without a classification an operation keeps its track, and a new one starts as observed. */
  lemma StepKeepsTrack(u: Suite, w: World, e: Event, n: nat, id: string)
    requires AllSane(u, w.nodes) && n < |w.nodes| && !Classifies(u, w, e, n, id)
    requires id in Step(u, w, e).nodes[n].ops
    ensures
      var op := Step(u, w, e).nodes[n].ops[id];
      if id in w.nodes[n].ops then op == w.nodes[n].ops[id] else op.track == OBSERVED
  {
    match e
    case Writes(m, key, value, transitionClass, deletion, stamp, now) =>
      if m == n { WriteKeepsTrack(u, w.nodes[n], w.gateway, key, value, transitionClass, deletion, stamp, now, id); }
    case Receives(m, body, receipt, now) =>
      if m == n { ApplyKeepsTrack(u, w.nodes[n], w.gateway, body, receipt, now, id); }
    case _ =>
  }

  lemma WriteKeepsTrack(u: Suite, s: NodeState, g: Gateway, key: string, value: Value, transitionClass: string,
                        deletion: bool, stamp: int, now: real, id: string)
    requires Sane(u, s) && id in Write(u, s, g, key, value, transitionClass, deletion, stamp, now).0.ops
    requires !(s.enrolled && transitionClass in TRANSITION_CLASSES
      && u.opId(WrittenBody(s, key, value, deletion)) == id)
    ensures
      var op := Write(u, s, g, key, value, transitionClass, deletion, stamp, now).0.ops[id];
      if id in s.ops then op == s.ops[id] else op.track == OBSERVED
  {
  }

  lemma ApplyKeepsTrack(u: Suite, s: NodeState, g: Gateway, body: Body, receipt: Option<Envelope>, now: real,
                        id: string)
    requires id in ApplyRemote(u, s, g, body, receipt, now).0.ops && !(body.docId == s.docId && u.opId(body) == id)
    ensures
      var op := ApplyRemote(u, s, g, body, receipt, now).0.ops[id];
      if id in s.ops then op == s.ops[id] else op.track == OBSERVED
  {
  }

  /** Only a classification of an operation touches its receipt. */
  lemma StepKeepsReceipt(u: Suite, w: World, e: Event, n: nat, id: string)
    requires AllSane(u, w.nodes) && n < |w.nodes| && !Classifies(u, w, e, n, id) && id in w.nodes[n].ledger
    ensures id in Step(u, w, e).nodes[n].ledger && Step(u, w, e).nodes[n].ledger[id] == w.nodes[n].ledger[id]
  {
  }

  lemma BackingCarriesOver(u: Suite, w: World, past: seq<Event>, e: Event, n: nat, id: string, k: nat)
    requires AllSane(u, w.nodes) && n < |w.nodes| && k < |past|
    requires BackedAt(u, w, past, n, id, k) && !Classifies(u, Run(u, w, past), e, n, id)
    ensures BackedAt(u, w, past + [e], n, id, k)
  {
    var events := past + [e];
    assert events[..|past|] == past && past[..k] == events[..k];
    StepKeepsReceipt(u, Run(u, w, past), e, n, id);
    forall j | k < j < |events| ensures !Classifies(u, Run(u, w, events[..j]), events[j], n, id) {
      if j < |past| { assert past[..j] == events[..j]; }
    }
  }

  /** An operation stays authorized from the evidence on, until it is classified again. */
  lemma {:induction false} StaysAuthorized(u: Suite, w: World, events: seq<Event>, n: nat, id: string, k: nat)
    requires AllSane(u, w.nodes) && n < |w.nodes| && k < |events|
    requires FoundAt(u, w, events, n, id, k) && LastClassified(u, w, events, n, id, k)
    ensures Authorizes(u, Run(u, w, events), n, id)
    decreases |events|
  {
    var last := |events| - 1;
    var past, e := events[..last], events[last];
    LastStep(u, w, events, n, id);
    if k < last {
      FoundInPast(u, w, events, n, id, k);
      LastInPast(u, w, events, n, id, k);
      StaysAuthorized(u, w, past, n, id, k);
    }
  }

  lemma LastStep(u: Suite, w: World, events: seq<Event>, n: nat, id: string)
    requires AllSane(u, w.nodes) && n < |w.nodes| && events != []
    ensures
      var last := |events| - 1;
      && (FoundAt(u, w, events, n, id, last) ==> Authorizes(u, Run(u, w, events), n, id))
      && (Authorizes(u, Run(u, w, events[..last]), n, id) ==>
          !Classifies(u, Run(u, w, events[..last]), events[last], n, id) ==> Authorizes(u, Run(u, w, events), n, id))
  {
    StepAuthorizesIff(u, Run(u, w, events[..|events| - 1]), events[|events| - 1], n, id);
  }

  ghost predicate FoundAt(u: Suite, w: World, events: seq<Event>, n: nat, id: string, k: nat)
    requires AllSane(u, w.nodes) && k < |events| && n < |w.nodes|
  {
    FindsEvidence(u, Run(u, w, events[..k]), events[k], n, id)
  }

  lemma FoundInPast(u: Suite, w: World, events: seq<Event>, n: nat, id: string, k: nat)
    requires AllSane(u, w.nodes) && n < |w.nodes| && k < |events| - 1
    ensures FoundAt(u, w, events[..|events| - 1], n, id, k) == FoundAt(u, w, events, n, id, k)
  {
    assert events[..|events| - 1][..k] == events[..k];
  }

  lemma LastInPast(u: Suite, w: World, events: seq<Event>, n: nat, id: string, k: nat)
    requires AllSane(u, w.nodes) && n < |w.nodes| && k < |events| && LastClassified(u, w, events, n, id, k)
    ensures LastClassified(u, w, events[..|events| - 1], n, id, k)
  {
    var past := events[..|events| - 1];
    forall j | k < j < |past| ensures !Classifies(u, Run(u, w, past[..j]), past[j], n, id) {
      assert past[..j] == events[..j];
    }
  }

  /** In every reachable state an operation is authorized exactly when its latest classification found, in the receipt
      the ledger still holds, a verifying signature over its own id by a signer then enrolled and not revoked. */
  lemma AuthorizedIffBacked(u: Suite, w: World, events: seq<Event>, n: nat, id: string)
    requires Genesis(u, w) && n < |w.nodes|
    ensures Authorizes(u, Run(u, w, events), n, id) <==>
      exists k :: 0 <= k < |events| && BackedAt(u, w, events, n, id, k)
  {
    if Authorizes(u, Run(u, w, events), n, id) { AuthorizationBacked(u, w, events, n, id); }
    if k :| 0 <= k < |events| && BackedAt(u, w, events, n, id, k) { StaysAuthorized(u, w, events, n, id, k); }
  }

  lemma {:induction false} AuthorizationBacked(u: Suite, w: World, events: seq<Event>, n: nat, id: string)
    requires Genesis(u, w) && n < |w.nodes| && Authorizes(u, Run(u, w, events), n, id)
    ensures exists k :: 0 <= k < |events| && BackedAt(u, w, events, n, id, k)
    decreases |events|
  {
    if events != [] {
      var last := |events| - 1;
      var past, e := events[..last], events[last];
      assert events == past + [e];
      StepAuthorizesIff(u, Run(u, w, past), e, n, id);
      if Classifies(u, Run(u, w, past), e, n, id) {
        assert BackedAt(u, w, events, n, id, last);
      } else {
        AuthorizationBacked(u, w, past, n, id);
        var k :| 0 <= k < |past| && BackedAt(u, w, past, n, id, k);
        BackingCarriesOver(u, w, past, e, n, id, k);
      }
    }
  }

  /** Certificates are bound to their keys in every reachable state, and the store never shrinks. */
  lemma {:induction false} CertificatesStayBound(u: Suite, w: World, events: seq<Event>)
    requires AllSane(u, w.nodes) && CertificatesBound(u, w.gateway)
    ensures CertificatesBound(u, Run(u, w, events).gateway) && Grows(w.gateway, Run(u, w, events).gateway)
  {
    if events != [] {
      CertificatesStayBound(u, w, events[..|events| - 1]);
      var before := Run(u, w, events[..|events| - 1]);
      match events[|events| - 1]
      case NodeEnrolls(n, formationKey, timestamp, doctrineVersion, kernelCommit, slsaLevel, vendor, now) =>
        if n < |before.nodes| {
          var s := before.nodes[n];
          var q := BuildRequest(u, formationKey, s.nodeId, u.publicKey(s.key), timestamp, doctrineVersion,
                                kernelCommit, slsaLevel, vendor);
          EnrollKeepsCertificatesBound(u, before.gateway, q, now);
        }
      case OutsiderEnrolls(request, now) => EnrollKeepsCertificatesBound(u, before.gateway, request, now);
      case _ =>
    }
  }

  /** A receipt that verifies, names the operation, and was signed with the key on file for an enrolled node
      whose id is the hash of that key. */
  ghost predicate Attests(u: Suite, g: Gateway, e: Envelope, id: string)
  {
    && SignatureVerifies(u, e)
    && var stmt := DecodeStatement(u, e).value;
    && stmt.changeHash == Some(id) && stmt.nodeId.value in g.certStore
    && g.certStore[stmt.nodeId.value].publicKeyDer == e.signatures[0].publicKeyDer.value
    && u.nodeIdOf(e.signatures[0].publicKeyDer.value) == stmt.nodeId.value
  }

  lemma EvidenceAttests(u: Suite, g: Gateway, g': Gateway, e: Envelope, id: string, now: real)
    requires Evidence(u, e, id, now, g.revoked, CLOCK_SKEW_SECONDS, Registry(g)) && CertificatesBound(u, g)
      && Grows(g, g')
    ensures Attests(u, g', e, id)
  {
    VerifiesIffSigned(u, e);
  }

  /** So each authorized operation has, in the current state, a receipt in the ledger that attests it. */
  lemma AuthorizedOpsAttested(u: Suite, w: World, events: seq<Event>, n: nat, id: string)
    requires Genesis(u, w) && n < |w.nodes| && Authorizes(u, Run(u, w, events), n, id)
    ensures
      var held := Run(u, w, events).nodes[n].ledger;
      id in held && Attests(u, Run(u, w, events).gateway, held[id], id)
  {
    AuthorizationBacked(u, w, events, n, id);
    var k :| 0 <= k < |events| && BackedAt(u, w, events, n, id, k);
    var past := Run(u, w, events[..k]);
    CertificatesStayBound(u, w, events[..k]);
    CertificatesStayBound(u, past, events[k..]);
    RunSplits(u, w, events, k);
    var held := Run(u, w, events).nodes[n].ledger;
    EvidenceAttests(u, past.gateway, Run(u, w, events).gateway, held[id], id, events[k].now);
  }

  lemma SplitJoins<T>(s: seq<T>, k: nat)
    requires k <= |s|
    ensures s[..k] + s[k..] == s
  {
  }

  lemma RunSplits(u: Suite, w: World, events: seq<Event>, k: nat)
    requires AllSane(u, w.nodes) && k <= |events|
    ensures Run(u, w, events) == Run(u, Run(u, w, events[..k]), events[k..])
  {
    SplitJoins(events, k);
    RunAppends(u, w, events[..k], events[k..]);
  }

  lemma AppendsLast<T>(s: seq<T>, t: seq<T>)
    ensures t == [] ==> s + t == s
    ensures t != [] ==> (s + t)[..|s + t| - 1] == s + t[..|t| - 1] && (s + t)[|s + t| - 1] == t[|t| - 1]
  {
  }

  lemma {:induction false} RunAppends(u: Suite, w: World, past: seq<Event>, more: seq<Event>)
    requires AllSane(u, w.nodes)
    ensures Run(u, w, past + more) == Run(u, Run(u, w, past), more)
  {
    AppendsLast(past, more);
    if more != [] { RunAppends(u, w, past, more[..|more| - 1]); }
  }

  // ---- convergence ----

  /** The operations that reach node n's document during a run: its own writes and those it is handed. */
  ghost function Reached(u: Suite, w: World, events: seq<Event>, n: nat): set<Body>
    requires AllSane(u, w.nodes)
  {
    if events == [] then {}
    else
      var past := Run(u, w, events[..|events| - 1]);
      Reached(u, w, events[..|events| - 1], n) + ReachedBy(past, events[|events| - 1], n)
  }

  function ReachedBy(w: World, e: Event, n: nat): set<Body>
  {
    if n >= |w.nodes| then {}
    else
      match e
      case Writes(m, key, value, _, deletion, _, _) =>
        if m == n && w.nodes[n].enrolled then {WrittenBody(w.nodes[n], key, value, deletion)} else {}
      case Receives(m, body, _, _) => if m == n && body.docId == w.nodes[n].docId then {body} else {}
      case _ => {}
  }

  /** Without collisions a node's document holds exactly what reached it. */
  lemma {:induction false} DocumentHoldsReached(u: Suite, w: World, events: seq<Event>, n: nat)
    requires Genesis(u, w) && n < |w.nodes|
    requires Injective(u.opId, Reached(u, w, events, n))
    ensures Bodies(Run(u, w, events).nodes[n].ops) == Reached(u, w, events, n)
    decreases |events|
  {
    if events != [] {
      var past, e := events[..|events| - 1], events[|events| - 1];
      DocumentHoldsReached(u, w, past, n);
      StepReaches(u, Run(u, w, past), e, n);
    }
  }

  lemma StepReaches(u: Suite, w: World, e: Event, n: nat)
    requires AllSane(u, w.nodes) && n < |w.nodes|
    requires Injective(u.opId, Bodies(w.nodes[n].ops) + ReachedBy(w, e, n))
    ensures Bodies(Step(u, w, e).nodes[n].ops) == Bodies(w.nodes[n].ops) + ReachedBy(w, e, n)
  {
    var s := w.nodes[n];
    match e
    case Writes(m, key, value, transitionClass, deletion, stamp, now) =>
      if m == n && s.enrolled {
        WriteBodies(u, s, w.gateway, key, value, transitionClass, deletion, stamp, now);
      }
    case Receives(m, body, receipt, now) =>
      if m == n && body.docId == s.docId { ApplyBodies(u, s, w.gateway, body, receipt, now); }
    case _ =>
  }

  /** Two nodes reached by the same operations, in whatever order and however often, with whatever receipts and
      local verdicts, show the same observed view and heads; and the same authorized view if they authorize
      the same operations. */
  lemma Convergence(u: Suite, w: World, events: seq<Event>, m: nat, n: nat)
    requires Genesis(u, w) && m < |w.nodes| && n < |w.nodes|
    requires Reached(u, w, events, m) == Reached(u, w, events, n) && Injective(u.opId, Reached(u, w, events, m))
    ensures
      var h, a, b := u.opId, Run(u, w, events).nodes[m].ops, Run(u, w, events).nodes[n].ops;
      && SameBodies(a, b) && Keyed(h, a) && Keyed(h, b)
      && View(h, a, VISIBLE) == View(h, b, VISIBLE) && Heads(h, a) == Heads(h, b)
      && ((forall i :: i in a ==> (a[i].track == AUTHORIZED <==> b[i].track == AUTHORIZED)) ==>
          View(h, a, {AUTHORIZED}) == View(h, b, {AUTHORIZED}))
  {
    DocumentHoldsReached(u, w, events, m);
    DocumentHoldsReached(u, w, events, n);
    var a, b := Run(u, w, events).nodes[m].ops, Run(u, w, events).nodes[n].ops;
    BodiesDetermineLog(u.opId, a, b);
    ObservedIgnoresClassification(u.opId, a, b);
    if forall i :: i in a ==> (a[i].track == AUTHORIZED <==> b[i].track == AUTHORIZED) {
      AuthorizedNeedsAgreement(u.opId, a, b);
    }
  }
}
