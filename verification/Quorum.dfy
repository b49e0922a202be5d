// The quorum certificate (szl_mesh/quorum.py) and the engine's tally (khipu_consensus).
module Quorum {
  import opened Prelude
  import Pae

  const ORGAN_VERDICT_PAYLOAD_TYPE := "application/vnd.szl.khipu.organ-verdict+json"
  const ALLOW := "allow"

  /** What an organ signs. */
  datatype Statement = Statement(organ: string, keyid: string, actionHash: string, verdict: string, reason: string,
                                 leanSha: string, ts: string)

  /** What a verifier reads from a signed payload; None for an absent field. */
  datatype Claim = Claim(actionHash: Option<string>, verdict: Option<string>)

  /** The library functions the engine calls. */
  datatype Engine = Engine(
    utf8: string -> bytes,
    canonical: Statement -> bytes,
    parse: bytes -> Option<Claim>,               // None unless the bytes are a JSON object
    encode64: bytes -> string,
    decode64: string -> Option<bytes>,           // None where b64decode raises
    sign: (string, bytes) -> bytes,              // private key, message
    publicKey: string -> string,
    verify: (string, bytes, bytes) -> bool)      // public key, signature, message; false where the library raises

  /** A dictionary field for which absent and null differ. */
  datatype Field = Absent | Null | Text(value: string)

  /** A witness record as a dictionary: None is an absent or null field. */
  datatype Witness = Witness(organ: Option<string>, keyid: Option<string>, payloadType: Field,
                             payload: Option<string>, sig: Option<string>, signature: Option<string>,
                             verdict: Option<string>)

  /** The engine's form of a record. A null payload type cannot be encoded. */
  datatype OrganVerdict = OrganVerdict(organ: Option<string>, keyid: Option<string>, payloadType: Option<string>,
                                       payload: Option<string>, signature: Option<string>)

  datatype OrganCheck = OrganCheck(organ: Option<string>, keyid: Option<string>, valid: bool, verdict: Option<string>,
                                   hashMatches: bool, counts: bool)

  /** Python's truth of an optional string. */
  predicate Present(s: Option<string>) { s.Some? && s.value != "" }

  /** Python's `a or b`. */
  function Or(a: Option<string>, b: Option<string>): Option<string> { if Present(a) then a else b }

  function Default(a: Option<string>, d: string): string { if a.Some? then a.value else d }

  // ---- the engine ----

  function NotValid(v: OrganVerdict): OrganCheck { OrganCheck(v.organ, v.keyid, false, None, false, false) }

  /** verify_verdict: one organ's record against its public key. */
  function VerifyVerdict(e: Engine, v: OrganVerdict, key: string, hash: string): OrganCheck
  {
    if !Present(v.payload) || !Present(v.signature) then NotValid(v)
    else
      match (e.decode64(v.payload.value), e.decode64(v.signature.value))
      case (Some(body), Some(sig)) =>
        if v.payloadType == None || !e.verify(key, sig, Pae.Encode(e.utf8(v.payloadType.value), body)) then NotValid(v)
        else (match e.parse(body)
              case None => NotValid(v)
              case Some(claim) =>
                var matches := claim.actionHash == Some(hash);
                OrganCheck(v.organ, v.keyid, true, claim.verdict, matches, matches && claim.verdict == Some(ALLOW)))
      case _ => NotValid(v)
  }

  /** How one item of a tally is checked; None is an abstention. */
  function Check(e: Engine, hash: string, keys: map<string, string>, item: Option<OrganVerdict>): OrganCheck
  {
    match item
    case None => OrganCheck(None, None, false, None, false, false)
    case Some(v) =>
      if v.organ.Some? && v.organ.value in keys && keys[v.organ.value] != ""
      then VerifyVerdict(e, v, keys[v.organ.value], hash)
      else NotValid(v)
  }

  function Checks(e: Engine, hash: string, keys: map<string, string>,
                  items: seq<Option<OrganVerdict>>): (r: seq<OrganCheck>)
    ensures |r| == |items| && forall i :: 0 <= i < |items| ==> r[i] == Check(e, hash, keys, items[i])
  {
    if items == [] then []
    else Checks(e, hash, keys, items[..|items| - 1]) + [Check(e, hash, keys, items[|items| - 1])]
  }

  function Counted(checks: seq<OrganCheck>): (n: nat)
    ensures n <= |checks|
  {
    if checks == [] then 0
    else Counted(checks[..|checks| - 1]) + if checks[|checks| - 1].counts then 1 else 0
  }

  datatype Consensus = Consensus(count: nat, canonical: bool, checks: seq<OrganCheck>)

  lemma NextCheck(e: Engine, hash: string, keys: map<string, string>, items: seq<Option<OrganVerdict>>, i: nat)
    requires i < |items|
    ensures
      var before, check := Checks(e, hash, keys, items[..i]), Check(e, hash, keys, items[i]);
      && Checks(e, hash, keys, items[..i + 1]) == before + [check]
      && Counted(before + [check]) == Counted(before) + if check.counts then 1 else 0
  {
    assert items[..i + 1][..i] == items[..i];
    var before := Checks(e, hash, keys, items[..i]);
    assert (before + [Check(e, hash, keys, items[i])])[..|before|] == before;
  }

  method CheckItem(e: Engine, hash: string, item: Option<OrganVerdict>, keys: map<string, string>)
    returns (check: OrganCheck)
    ensures check == Check(e, hash, keys, item)
  {
    match item {
      case None => return OrganCheck(None, None, false, None, false, false);
      case Some(v) =>
        var key := if v.organ.Some? && v.organ.value in keys then keys[v.organ.value] else "";
        if key == "" { return NotValid(v); }
        return VerifyVerdict(e, v, key, hash);
    }
  }

  method Tally(e: Engine, hash: string, items: seq<Option<OrganVerdict>>, keys: map<string, string>, threshold: int)
    returns (r: Consensus)
    ensures r.checks == Checks(e, hash, keys, items)
    ensures r.count == Counted(r.checks) && (r.canonical <==> r.count >= threshold)
  {
    var checks: seq<OrganCheck>, count: nat := [], 0;
    for i := 0 to |items|
      invariant checks == Checks(e, hash, keys, items[..i]) && count == Counted(checks)
    {
      NextCheck(e, hash, keys, items, i);
      var check := CheckItem(e, hash, items[i], keys);
      checks := checks + [check];
      if check.counts { count := count + 1; }
    }
    assert items[..|items|] == items;
    return Consensus(count, count >= threshold, checks);
  }

  // ---- what a record is worth ----

  /** A record's payload, in full, and the signature over it. */
  ghost predicate SignedBy(e: Engine, w: Witness, key: string, body: bytes)
  {
    var signature := if w.sig.Some? && w.sig.value != "" then w.sig else w.signature;
    && w.payload.Some? && w.payload.value != "" && signature.Some? && signature.value != "" && w.payloadType != Null
    && e.decode64(w.payload.value) == Some(body)
    && e.decode64(signature.value).Some?
    && e.verify(key, e.decode64(signature.value).value, Message(e, w, body))
  }

  function Message(e: Engine, w: Witness, body: bytes): bytes
    requires w.payloadType != Null
  {
    Pae.Encode(e.utf8(if w.payloadType == Absent then ORGAN_VERDICT_PAYLOAD_TYPE else w.payloadType.value), body)
  }

  /** w.get("payloadType", ORGAN_VERDICT_PAYLOAD_TYPE) */
  function TypeOf(w: Witness): (t: Option<string>)
    ensures t == None <==> w.payloadType == Null
  {
    match w.payloadType
    case Absent => Some(ORGAN_VERDICT_PAYLOAD_TYPE)
    case Null => None
    case Text(t) => Some(t)
  }

  /** A signed payload that allows the action. */
  predicate Allows(e: Engine, body: bytes, hash: string)
  {
    e.parse(body) == Some(Claim(Some(hash), Some(ALLOW)))
  }

  /** The record names a trusted organ, and that organ's key signed a payload that allows the action. */
  ghost predicate Supports(e: Engine, keys: map<string, string>, hash: string, w: Witness, organ: string)
  {
    && w.organ == Some(organ) && organ in keys && keys[organ] != ""
    && exists body :: SignedBy(e, w, keys[organ], body) && Allows(e, body, hash)
  }

  ghost predicate HasSupport(e: Engine, keys: map<string, string>, hash: string, records: seq<Option<Witness>>,
                             organ: string)
  {
    exists i :: 0 <= i < |records| && records[i].Some? && Supports(e, keys, hash, records[i].value, organ)
  }

  /** The organs with at least one record that supports the action. */
  ghost function Supporters(e: Engine, keys: map<string, string>, hash: string,
                            records: seq<Option<Witness>>): set<string>
  {
    set organ | organ in keys && HasSupport(e, keys, hash, records, organ)
  }

  // ---- verification ----

  /** A certificate field that ought to be an integer. */
  datatype Declared = Undeclared | Number(value: int) | NotANumber

  /** A certificate object; a None witness is a missing one. */
  datatype Certificate = Certificate(actionHash: string, witnesses: seq<Option<Witness>>, threshold: int, n: int,
                                     canonical: bool, consensusCount: int)

  /** A certificate as a dictionary. The hash is None unless it is a string, the witnesses unless they are a list; a
      None witness is an entry that is not a dictionary. */
  datatype Wire = Wire(actionHash: Option<string>, threshold: Declared, n: Declared,
                       witnesses: Option<seq<Option<Witness>>>)

  datatype Submission = Object(certificate: Certificate) | Dictionary(wire: Wire) | NotACertificate

  datatype Verification = Verification(actionHash: string, threshold: int, n: int, count: nat, canonical: bool,
                                       checks: seq<OrganCheck>)

  /** The record that to_dict writes. */
  function ToWire(w: Witness): Witness
  {
    Witness(w.organ, w.keyid, if TypeOf(w).Some? then Text(TypeOf(w).value) else Null, w.payload,
            Or(w.signature, w.sig), None, Some(Default(w.verdict, ALLOW)))
  }

  /** The records of a certificate that are there, as to_dict writes them. */
  function WireRecords(ws: seq<Option<Witness>>): seq<Option<Witness>>
  {
    if ws == [] then []
    else WireRecords(ws[..|ws| - 1]) + match ws[|ws| - 1] case None => [] case Some(w) => [Some(ToWire(w))]
  }

  function ToDict(c: Certificate): Wire
  {
    Wire(Some(c.actionHash), Number(c.threshold), Number(c.n), Some(WireRecords(c.witnesses)))
  }

  function Admitted(w: Witness): OrganVerdict
  {
    OrganVerdict(w.organ, w.keyid, TypeOf(w), w.payload, Or(w.sig, w.signature))
  }

  /** The records handed to the engine. */
  function Items(records: seq<Option<Witness>>): seq<Option<OrganVerdict>>
  {
    if records == [] then []
    else
      Items(records[..|records| - 1])
        + match records[|records| - 1] case None => [] case Some(w) => [Some(Admitted(w))]
  }

  function WireOf(qc: Submission): Option<Wire>
  {
    match qc
    case Object(c) => Some(ToDict(c))
    case Dictionary(w) => Some(w)
    case NotACertificate => None
  }

  predicate Agrees(d: Declared, policy: int) { d == Undeclared || d == Number(policy) }

  /** The certificate has a hash to bind its witnesses to, and does not ask for another policy. */
  predicate Admissible(qc: Submission, threshold: int, n: int)
  {
    var w := WireOf(qc);
    w.Some? && Agrees(w.value.threshold, threshold) && Agrees(w.value.n, n) && Present(w.value.actionHash)
  }

  function HashOf(qc: Submission): string
    requires WireOf(qc).Some? && WireOf(qc).value.actionHash.Some?
  {
    WireOf(qc).value.actionHash.value
  }

  function RecordsOf(qc: Submission): seq<Option<Witness>>
    requires WireOf(qc).Some?
  {
    if WireOf(qc).value.witnesses.Some? then WireOf(qc).value.witnesses.value else []
  }

  function CountingOrgans(checks: seq<OrganCheck>): set<string>
  {
    set c | c in checks && c.counts && c.organ.Some? :: c.organ.value
  }

  predicate ValidPolicy(threshold: int, n: int) { 1 <= threshold <= n }

  /** Hands every record to the engine, duplicates included. */
  method Collect(raw: seq<Option<Witness>>) returns (items: seq<Option<OrganVerdict>>)
    ensures items == Items(raw)
  {
    items := [];
    for i := 0 to |raw|
      invariant items == Items(raw[..i])
    {
      assert raw[..i + 1][..i] == raw[..i];
      if raw[i].Some? { items := items + [Some(Admitted(raw[i].value))]; }
    }
    assert raw[..|raw|] == raw;
  }

  /** Fails closed on anything inadmissible. Otherwise the count is the number of trusted organs whose support the
      certificate shows, and the action is canonical when the threshold is met. */
  method VerifyQuorum(e: Engine, qc: Submission, keys: map<string, string>, threshold: int, n: int)
    returns (r: Result<Verification, string>)
    ensures r.Success? <==> 1 <= threshold <= n
    ensures r.Success? && !Admissible(qc, threshold, n) ==> r.value == Verification("", threshold, n, 0, false, [])
    ensures r.Success? && Admissible(qc, threshold, n) ==>
      && r.value.actionHash == HashOf(qc) && r.value.threshold == threshold && r.value.n == n
      && r.value.count == |Supporters(e, keys, HashOf(qc), RecordsOf(qc))|
      && (r.value.canonical <==> r.value.count >= threshold)
      && r.value.checks == Checks(e, HashOf(qc), keys, Items(RecordsOf(qc)))
  {
    if !ValidPolicy(threshold, n) { return Failure("quorum policy requires integer 1 <= threshold <= n"); }
    var closed := Verification("", threshold, n, 0, false, []);
    var wire: Wire;
    match qc {
      case Object(c) => wire := ToDict(c);
      case Dictionary(w) => wire := w;
      case NotACertificate => return Success(closed);
    }
    if !Agrees(wire.threshold, threshold) || !Agrees(wire.n, n) { return Success(closed); }
    if !Present(wire.actionHash) { return Success(closed); }
    var hash, raw := wire.actionHash.value, if wire.witnesses.Some? then wire.witnesses.value else [];
    var items := Collect(raw);
    var result := Tally(e, hash, items, keys, threshold);
    var counting := CountingOrgans(result.checks);
    CountingAreSupporters(e, keys, hash, raw);
    return Success(Verification(hash, threshold, n, |counting|, |counting| >= threshold, result.checks));
  }

  /** Which certificates are admissible, form by form. */
  lemma AdmissibleIff(qc: Submission, threshold: int, n: int)
    ensures Admissible(qc, threshold, n) <==>
      match qc
      case Object(c) => c.threshold == threshold && c.n == n && c.actionHash != ""
      case Dictionary(w) =>
        && w.actionHash != None && w.actionHash != Some("")
        && (w.threshold == Undeclared || w.threshold == Number(threshold)) && (w.n == Undeclared || w.n == Number(n))
      case NotACertificate => false
  {
  }

  /** What a check finds proved: the organ is trusted, its key signed the payload, and the payload makes this claim. */
  ghost predicate Proves(e: Engine, keys: map<string, string>, v: OrganVerdict, claim: Claim)
  {
    && v.organ.Some? && v.organ.value in keys && keys[v.organ.value] != ""
    && v.payload.Some? && v.payload.value != "" && v.signature.Some? && v.signature.value != "" && v.payloadType.Some?
    && e.decode64(v.payload.value).Some? && e.decode64(v.signature.value).Some?
    && var body := e.decode64(v.payload.value).value;
    && e.verify(keys[v.organ.value], e.decode64(v.signature.value).value, Pae.Encode(e.utf8(v.payloadType.value), body))
    && e.parse(body) == Some(claim)
  }

  /** A check names the record's organ and key id, is valid exactly when something is proved, and reports it. */
  lemma CheckExact(e: Engine, hash: string, keys: map<string, string>, v: OrganVerdict)
    ensures
      var c := Check(e, hash, keys, Some(v));
      && c.organ == v.organ && c.keyid == v.keyid
      && (c.valid <==> exists claim :: Proves(e, keys, v, claim))
      && (forall claim :: Proves(e, keys, v, claim) ==>
          c.verdict == claim.verdict && (c.hashMatches <==> claim.actionHash == Some(hash)))
      && (!c.valid ==> c.verdict == None && !c.hashMatches)
      && (c.counts <==> c.hashMatches && c.verdict == Some("allow"))
  {
    var c := Check(e, hash, keys, Some(v));
    if c.valid {
      assert Proves(e, keys, v, e.parse(e.decode64(v.payload.value).value).value);
    }
  }

  /** In a certificate object, unlike in a dictionary, `signature` comes before `sig`. */
  lemma ObjectSupports(e: Engine, keys: map<string, string>, hash: string, w: Witness, organ: string)
    ensures Supports(e, keys, hash, ToWire(w), organ) <==>
      Supports(e, keys, hash, SignatureFirst(w), organ)
  {
    var swapped := SignatureFirst(w);
    forall key, body ensures SignedBy(e, ToWire(w), key, body) == SignedBy(e, swapped, key, body) {}
  }

  /** What a submission is checked for: a dictionary's own hash and records, an object's hash and its records as written
      to a dictionary. */
  lemma SubmittedRecords(e: Engine, keys: map<string, string>, hash: string, qc: Submission, organ: string)
    requires WireOf(qc).Some?
    ensures qc.Dictionary? ==>
      && (qc.wire.actionHash.Some? ==> HashOf(qc) == qc.wire.actionHash.value)
      && RecordsOf(qc) == if qc.wire.witnesses.Some? then qc.wire.witnesses.value else []
    ensures qc.Object? ==> HashOf(qc) == qc.certificate.actionHash
    ensures qc.Object? ==>
      (organ in Supporters(e, keys, hash, RecordsOf(qc)) <==> Backs(e, keys, hash, qc.certificate.witnesses, organ))
  {
    if qc.Object? {
      var ws := qc.certificate.witnesses;
      WiredSupport(e, keys, hash, ws, organ);
      assert organ in Supporters(e, keys, hash, WireRecords(ws)) <==> HasSupport(e, keys, hash, WireRecords(ws), organ);
    }
  }

  function SignatureFirst(w: Witness): Witness
  {
    if w.signature.Some? && w.signature.value != "" then w.(sig := w.signature) else w
  }

  /** The organ has a record in a certificate object. */
  ghost predicate Backs(e: Engine, keys: map<string, string>, hash: string, ws: seq<Option<Witness>>, organ: string)
  {
    exists i :: 0 <= i < |ws| && ws[i].Some? && Supports(e, keys, hash, SignatureFirst(ws[i].value), organ)
  }

  lemma {:induction false} WiredSupport(e: Engine, keys: map<string, string>, hash: string, ws: seq<Option<Witness>>,
                                        organ: string)
    ensures HasSupport(e, keys, hash, WireRecords(ws), organ) <==> Backs(e, keys, hash, ws, organ)
  {
    if ws != [] {
      var rest, last := ws[..|ws| - 1], ws[|ws| - 1];
      WiredSupport(e, keys, hash, rest, organ);
      OneMoreBacks(e, keys, hash, rest, last, organ);
      assert rest + [last] == ws;
      if last.Some? {
        ObjectSupports(e, keys, hash, last.value, organ);
        OneMoreRecord(e, keys, hash, WireRecords(rest), Some(ToWire(last.value)), organ);
      } else {
        assert WireRecords(ws) == WireRecords(rest);
      }
    }
  }

  lemma OneMoreBacks(e: Engine, keys: map<string, string>, hash: string, ws: seq<Option<Witness>>, w: Option<Witness>,
                     organ: string)
    ensures Backs(e, keys, hash, ws + [w], organ) <==>
      Backs(e, keys, hash, ws, organ) || (w.Some? && Supports(e, keys, hash, SignatureFirst(w.value), organ))
  {
    var all := ws + [w];
    assert all[|ws|] == w;
    assert forall i :: 0 <= i < |ws| ==> all[i] == ws[i];
  }

  lemma OneMoreRecord(e: Engine, keys: map<string, string>, hash: string, records: seq<Option<Witness>>,
                      w: Option<Witness>, organ: string)
    ensures HasSupport(e, keys, hash, records + [w], organ) <==>
      HasSupport(e, keys, hash, records, organ) || (w.Some? && Supports(e, keys, hash, w.value, organ))
  {
    var all := records + [w];
    assert all[|records|] == w;
    assert forall i :: 0 <= i < |records| ==> all[i] == records[i];
  }

  /** The checks of a submission: one for each record that is there, in order. */
  lemma CheckedInTurn(e: Engine, hash: string, keys: map<string, string>, a: seq<Option<Witness>>, w: Option<Witness>,
                      b: seq<Option<Witness>>)
    ensures Checks(e, hash, keys, Items([])) == []
    ensures Checks(e, hash, keys, Items([w])) ==
      if w == None then [] else [Check(e, hash, keys, Some(Admitted(w.value)))]
    ensures Checks(e, hash, keys, Items(a + b)) == Checks(e, hash, keys, Items(a)) + Checks(e, hash, keys, Items(b))
  {
    ItemsInTurn(a, b);
    ChecksInTurn(e, hash, keys, Items(a), Items(b));
  }

  lemma {:induction false} ItemsInTurn(a: seq<Option<Witness>>, b: seq<Option<Witness>>)
    ensures Items(a + b) == Items(a) + Items(b)
    decreases |b|
  {
    if b == [] {
      assert a + b == a;
    } else {
      ItemsInTurn(a, b[..|b| - 1]);
      assert (a + b)[..|a + b| - 1] == a + b[..|b| - 1];
    }
  }

  lemma {:induction false} ChecksInTurn(e: Engine, hash: string, keys: map<string, string>,
                                        a: seq<Option<OrganVerdict>>, b: seq<Option<OrganVerdict>>)
    ensures Checks(e, hash, keys, a + b) == Checks(e, hash, keys, a) + Checks(e, hash, keys, b)
    decreases |b|
  {
    if b == [] {
      assert a + b == a;
    } else {
      ChecksInTurn(e, hash, keys, a, b[..|b| - 1]);
      assert (a + b)[..|a + b| - 1] == a + b[..|b| - 1];
    }
  }

  lemma RecordSupports(e: Engine, keys: map<string, string>, hash: string, w: Witness, organ: string)
    ensures Supports(e, keys, hash, w, organ) <==>
      var c := Check(e, hash, keys, Some(Admitted(w)));
      c.counts && c.organ == Some(organ)
  {
    var c := Check(e, hash, keys, Some(Admitted(w)));
    if c.counts && c.organ == Some(organ) {
      var body := e.decode64(w.payload.value).value;
      assert SignedBy(e, w, keys[organ], body) && Allows(e, body, hash);
    }
  }

  ghost predicate Gives(records: seq<Option<Witness>>, item: Option<OrganVerdict>)
  {
    exists i :: 0 <= i < |records| && records[i].Some? && item == Some(Admitted(records[i].value))
  }

  lemma OneMoreGives(records: seq<Option<Witness>>, w: Option<Witness>, item: Option<OrganVerdict>)
    ensures Gives(records + [w], item) <==> Gives(records, item) || (w.Some? && item == Some(Admitted(w.value)))
  {
    var all := records + [w];
    assert all[|records|] == w;
    assert forall i :: 0 <= i < |records| ==> all[i] == records[i];
  }

  lemma {:induction false} ItemsOf(records: seq<Option<Witness>>, item: Option<OrganVerdict>)
    ensures item in Items(records) <==> Gives(records, item)
  {
    if records != [] {
      var rest, last := records[..|records| - 1], records[|records| - 1];
      ItemsOf(rest, item);
      assert rest + [last] == records;
      OneMoreGives(rest, last, item);
    }
  }

  /** The organs counted are exactly those that the records support. */
  lemma CountingAreSupporters(e: Engine, keys: map<string, string>, hash: string, records: seq<Option<Witness>>)
    ensures CountingOrgans(Checks(e, hash, keys, Items(records))) == Supporters(e, keys, hash, records)
  {
    var items := Items(records);
    var checks := Checks(e, hash, keys, items);
    forall organ | organ in CountingOrgans(checks) ensures organ in Supporters(e, keys, hash, records) {
      var i :| 0 <= i < |checks| && checks[i].counts && checks[i].organ == Some(organ);
      ItemsOf(records, items[i]);
      var j :| 0 <= j < |records| && records[j].Some? && items[i] == Some(Admitted(records[j].value));
      RecordSupports(e, keys, hash, records[j].value, organ);
    }
    forall organ | organ in Supporters(e, keys, hash, records) ensures organ in CountingOrgans(checks) {
      var j :| 0 <= j < |records| && records[j].Some? && Supports(e, keys, hash, records[j].value, organ);
      RecordSupports(e, keys, hash, records[j].value, organ);
      ItemsOf(records, Some(Admitted(records[j].value)));
      var i :| 0 <= i < |items| && items[i] == Some(Admitted(records[j].value));
      assert checks[i].counts && checks[i] in checks;
    }
  }

  // ---- what an adversary's duplicates can do ----

  /** Every record of a is also in b. */
  ghost predicate Included(a: seq<Option<Witness>>, b: seq<Option<Witness>>)
  {
    forall w :: w in a ==> w in b
  }

  /** More records never lose an organ; so the count depends only on which records there are, not on their order or
      on how often they are replayed. */
  lemma SupportMonotone(e: Engine, keys: map<string, string>, hash: string, a: seq<Option<Witness>>,
                        b: seq<Option<Witness>>)
    requires Included(a, b)
    ensures Supporters(e, keys, hash, a) <= Supporters(e, keys, hash, b)
    ensures Included(b, a) ==> Supporters(e, keys, hash, a) == Supporters(e, keys, hash, b)
  {
    SupportIncluded(e, keys, hash, a, b);
    if Included(b, a) { SupportIncluded(e, keys, hash, b, a); }
  }

  lemma SupportIncluded(e: Engine, keys: map<string, string>, hash: string, a: seq<Option<Witness>>,
                        b: seq<Option<Witness>>)
    requires Included(a, b)
    ensures Supporters(e, keys, hash, a) <= Supporters(e, keys, hash, b)
  {
    forall organ | organ in Supporters(e, keys, hash, a) ensures HasSupport(e, keys, hash, b, organ) {
      var i :| 0 <= i < |a| && a[i].Some? && Supports(e, keys, hash, a[i].value, organ);
      assert a[i] in b;
      var j :| 0 <= j < |b| && b[j] == a[i];
    }
  }

  lemma NoSupportIn(e: Engine, keys: map<string, string>, hash: string, records: seq<Option<Witness>>, w: Witness,
                    organ: string)
    requires organ !in Supporters(e, keys, hash, records) && Supports(e, keys, hash, w, organ)
    ensures Some(w) !in records
  {
    assert !HasSupport(e, keys, hash, records, organ);
  }

  /** Records that support nobody, wherever they are put, change nothing. */
  lemma JunkChangesNothing(e: Engine, keys: map<string, string>, hash: string, a: seq<Option<Witness>>,
                           junk: seq<Option<Witness>>, b: seq<Option<Witness>>)
    requires Supporters(e, keys, hash, junk) == {}
    ensures Supporters(e, keys, hash, a + junk + b) == Supporters(e, keys, hash, a + b)
  {
    var all := a + junk + b;
    SupportIncluded(e, keys, hash, a + b, all);
    forall organ | organ in Supporters(e, keys, hash, all) ensures HasSupport(e, keys, hash, a + b, organ) {
      var i :| 0 <= i < |all| && all[i].Some? && Supports(e, keys, hash, all[i].value, organ);
      NoSupportIn(e, keys, hash, junk, all[i].value, organ);
      assert all[i] in a + b;
      var k :| 0 <= k < |a + b| && (a + b)[k] == all[i];
    }
  }

  /** Adding organs one check at a time: at most one new organ for each counted check. */
  lemma {:induction false} OrgansAtMostCounted(checks: seq<OrganCheck>)
    ensures |CountingOrgans(checks)| <= Counted(checks)
  {
    if checks != [] {
      var rest, last := checks[..|checks| - 1], checks[|checks| - 1];
      OrgansAtMostCounted(rest);
      assert checks == rest + [last];
      if last.counts && last.organ.Some? {
        assert CountingOrgans(checks) == CountingOrgans(rest) + {last.organ.value};
      } else {
        assert CountingOrgans(checks) == CountingOrgans(rest);
      }
    }
  }

  /** The engine's raw count is never below the verified one. */
  lemma CountAtMostTally(e: Engine, keys: map<string, string>, hash: string, records: seq<Option<Witness>>)
    ensures |Supporters(e, keys, hash, records)| <= Counted(Checks(e, hash, keys, Items(records)))
  {
    OrgansAtMostCounted(Checks(e, hash, keys, Items(records)));
    CountingAreSupporters(e, keys, hash, records);
  }
}
