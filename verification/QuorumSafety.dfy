// When two conflicting actions cannot both be canonical: quorum intersection, and why its bound is exact.
module QuorumSafety {
  import opened Prelude
  import opened Orders
  import opened Proposal
  import opened Quorum
  import LeastConnections
  import Pae

  /** A statement body signed with a key, under a payload type. */
  datatype Signed = Signed(key: string, payloadType: bytes, body: bytes)

  type Records = seq<Option<Witness>>

  /** The signature on a record verifies under the key, for this message. */
  ghost predicate Verifies(e: Engine, w: Witness, key: string, message: bytes)
  {
    exists body :: SignedBy(e, w, key, body) && message == Message(e, w, body)
  }

  ghost predicate WasSigned(issued: set<Signed>, key: string, message: bytes)
  {
    exists s :: s in issued && s.key == key && Pae.Encode(s.payloadType, s.body) == message
  }

  /** Nobody else makes signatures that verify under an honest key: what verifies was signed with it. */
  ghost predicate Unforged(e: Engine, issued: set<Signed>, honest: set<string>, records: Records)
  {
    forall i, key, message ::
      0 <= i < |records| && records[i].Some? && key in honest && Verifies(e, records[i].value, key, message)
      ==> WasSigned(issued, key, message)
  }

  ghost predicate SignedFor(e: Engine, issued: set<Signed>, key: string, hash: string)
  {
    exists s :: s in issued && s.key == key && Allows(e, s.body, hash)
  }

  /** Honest keys never allow both of two conflicting actions. */
  ghost predicate KeepsToOne(e: Engine, issued: set<Signed>, honest: set<string>, hash: string, hash': string)
  {
    forall key :: key in honest ==> !(SignedFor(e, issued, key, hash) && SignedFor(e, issued, key, hash'))
  }

  ghost predicate DistinctKeys(keys: map<string, string>)
  {
    forall a, b :: a in keys && b in keys && keys[a] == keys[b] ==> a == b
  }

  /** A supporter's honest key signed an allowing statement: the encoding that verified has only one reading. */
  lemma SupporterSigned(e: Engine, keys: map<string, string>, hash: string, records: Records, issued: set<Signed>,
                        honest: set<string>, organ: string)
    requires Unforged(e, issued, honest, records)
    requires organ in Supporters(e, keys, hash, records) && keys[organ] in honest
    ensures SignedFor(e, issued, keys[organ], hash)
  {
    var i :| 0 <= i < |records| && records[i].Some? && Supports(e, keys, hash, records[i].value, organ);
    var w, key := records[i].value, keys[organ];
    var body :| SignedBy(e, w, key, body) && Allows(e, body, hash);
    var message := Message(e, w, body);
    assert Verifies(e, w, key, message);
    assert WasSigned(issued, key, message);
    var s :| s in issued && s.key == key && Pae.Encode(s.payloadType, s.body) == message;
    var t := if w.payloadType == Absent then ORGAN_VERDICT_PAYLOAD_TYPE else w.payloadType.value;
    Pae.EncodeInjective(s.payloadType, s.body, e.utf8(t), body);
  }

  // ---- counting ----

  lemma QuorumsOverlap(a: set<string>, b: set<string>, all: set<string>)
    requires a <= all && b <= all
    ensures |a| + |b| - |all| <= |a * b|
  {
    assert a + b == a + (b - a) && b == (b - a) + (a * b);
    LeastConnections.Subset(a + b, all);
  }

  /** Organs with distinct keys from a set are no more than the set. */
  lemma {:induction false} OrgansWithin(organs: set<string>, keys: map<string, string>, bad: set<string>)
    requires organs <= keys.Keys && DistinctKeys(keys) && forall o :: o in organs ==> keys[o] in bad
    ensures |organs| <= |bad|
    decreases |organs|
  {
    if organs != {} {
      var o :| o in organs;
      OrgansWithin(organs - {o}, keys, bad - {keys[o]});
    }
  }

  /** The hypotheses of the quorum argument for one pair of conflicting actions. At most n organs are trusted, with
      distinct keys; at most f of the keys are Byzantine; the others sign for at most one of the two actions. */
  ghost predicate Assumptions(e: Engine, keys: map<string, string>, n: int, f: int, byzantine: set<string>,
                              issued: set<Signed>, hash: string, records: Records, hash': string, records': Records)
  {
    var honest := keys.Values - byzantine;
    && |keys| <= n && DistinctKeys(keys) && |byzantine| <= f
    && KeepsToOne(e, issued, honest, hash, hash')
    && Unforged(e, issued, honest, records) && Unforged(e, issued, honest, records')
  }

  /** With fewer than 2 * threshold - n Byzantine keys, one of the two actions lacks a quorum. */
  lemma QuorumSafety(e: Engine, keys: map<string, string>, threshold: int, n: int, f: int, byzantine: set<string>,
                     issued: set<Signed>, hash: string, records: Records, hash': string, records': Records)
    requires Assumptions(e, keys, n, f, byzantine, issued, hash, records, hash', records')
    requires f < 2 * threshold - n
    ensures |Supporters(e, keys, hash, records)| < threshold || |Supporters(e, keys, hash', records')| < threshold
  {
    var a, b, honest :=
      Supporters(e, keys, hash, records), Supporters(e, keys, hash', records'), keys.Values - byzantine;
    QuorumsOverlap(a, b, keys.Keys);
    forall o | o in a * b ensures keys[o] in byzantine {
      assert keys[o] in keys.Values;
      if keys[o] in honest {
        SupporterSigned(e, keys, hash, records, issued, honest, o);
        SupporterSigned(e, keys, hash', records', issued, honest, o);
      }
    }
    OrgansWithin(a * b, keys, byzantine);
    assert |keys.Keys| == |keys|;
  }

  /** No two certificates for conflicting actions both verify as canonical. */
  lemma NoConflictingCertificates(e: Engine, keys: map<string, string>, threshold: int, n: int, f: int,
                                  byzantine: set<string>, issued: set<Signed>, qc: Submission, qc': Submission)
    requires Admissible(qc, threshold, n) && Admissible(qc', threshold, n)
    requires Assumptions(e, keys, n, f, byzantine, issued, HashOf(qc), RecordsOf(qc), HashOf(qc'), RecordsOf(qc'))
    requires f < 2 * threshold - n
    ensures
      !(|Supporters(e, keys, HashOf(qc), RecordsOf(qc))| >= threshold &&
        |Supporters(e, keys, HashOf(qc'), RecordsOf(qc'))| >= threshold)
  {
    QuorumSafety(e, keys, threshold, n, f, byzantine, issued, HashOf(qc), RecordsOf(qc), HashOf(qc'), RecordsOf(qc'));
  }

  /** Three of four tolerates one Byzantine key. */
  lemma DefaultPolicyToleratesOne(e: Engine, keys: map<string, string>, byzantine: set<string>, issued: set<Signed>,
                                  hash: string, records: Records, hash': string, records': Records)
    requires Assumptions(e, keys, 4, 1, byzantine, issued, hash, records, hash', records')
    ensures |Supporters(e, keys, hash, records)| < 3 || |Supporters(e, keys, hash', records')| < 3
  {
    QuorumSafety(e, keys, 3, 4, 1, byzantine, issued, hash, records, hash', records');
  }

  // ---- the bound is exact ----

  /** With this engine, no two conflicting actions both gather a quorum. */
  ghost predicate Safe(e: Engine, threshold: int, n: int, f: int)
  {
    forall keys, byzantine, issued, hash, records, hash', records' ::
      hash != hash' && Assumptions(e, keys, n, f, byzantine, issued, hash, records, hash', records') ==>
      |Supporters(e, keys, hash, records)| < threshold || |Supporters(e, keys, hash', records')| < threshold
  }

  /** A formation: n organs, each with a private key of its own, whose signatures verify under no other organ's key. */
  ghost predicate Formation(e: Engine, organs: seq<string>, pems: map<string, string>)
  {
    && Distinct(organs) && (forall o :: o in organs ==> o in pems && pems[o] != "")
    && forall o, o', m :: o in organs && o' in organs && e.verify(e.publicKey(pems[o']), e.sign(pems[o], m), m)
         ==> o == o'
  }

  /** A proposal of the action to which every organ agrees. */
  function Unanimous(hash: string, pems: map<string, string>, notes: Notes): Proposed
  {
    Proposed(hash, pems, map[], notes)
  }

  /** The records that a proposal among these organs puts into its certificate. */
  function RecordsFrom(e: Engine, p: Proposed, organs: seq<string>): Records { WireRecords(Collected(e, p, organs)) }

  function StatementBody(e: Engine, p: Proposed, organ: string): bytes
  {
    var notes := NotesOf(p, organ);
    e.canonical(Statement(organ, organ + "-cosign", p.hash, VerdictOf(p, organ), notes.reason, notes.leanSha, notes.ts))
  }

  /** What these organs sign in the proposal. */
  function SignedIn(e: Engine, p: Proposed, organs: seq<string>): set<Signed>
  {
    set o | o in organs && HasKey(p, o) ::
      Signed(e.publicKey(p.pems[o]), e.utf8(ORGAN_VERDICT_PAYLOAD_TYPE), StatementBody(e, p, o))
  }

  function KeysOf(e: Engine, pems: map<string, string>, organs: seq<string>): set<string>
  {
    set o | o in organs && o in pems :: e.publicKey(pems[o])
  }

  lemma WireNext(ws: Records, w: Witness)
    ensures WireRecords(ws + [Some(w)]) == WireRecords(ws) + [Some(ToWire(w))]
  {
    assert (ws + [Some(w)])[..|ws|] == ws;
  }

  lemma {:induction false} RecordsAreSigned(e: Engine, p: Proposed, organs: seq<string>, r: Option<Witness>)
    requires r in RecordsFrom(e, p, organs)
    ensures exists o :: o in organs && HasKey(p, o) && r == Some(ToWire(RecordOf(e, p, o)))
  {
    if organs != [] {
      var rest, organ := organs[..|organs| - 1], organs[|organs| - 1];
      assert organs == rest + [organ] && organs[..|organs|] == organs;
      NextOrgan(e, p, organs, |organs| - 1);
      if HasKey(p, organ) { WireNext(Collected(e, p, rest), RecordOf(e, p, organ)); }
      if r in RecordsFrom(e, p, rest) {
        RecordsAreSigned(e, p, rest, r);
        var o :| o in rest && HasKey(p, o) && r == Some(ToWire(RecordOf(e, p, o)));
        assert o in organs;
      }
    }
  }

  /** Only the signer's own key verifies a record, and only for what the signer signed. */
  lemma RecordVerifies(e: Engine, p: Proposed, all: seq<string>, organ: string, organ': string, message: bytes)
    requires Proposal.Correct(e) && Formation(e, all, p.pems) && organ in all && organ' in all
    requires Verifies(e, ToWire(RecordOf(e, p, organ)), e.publicKey(p.pems[organ']), message)
    ensures organ == organ' && message == Pae.Encode(e.utf8(ORGAN_VERDICT_PAYLOAD_TYPE), StatementBody(e, p, organ))
  {
    var w, key := ToWire(RecordOf(e, p, organ)), e.publicKey(p.pems[organ']);
    var body :| SignedBy(e, w, key, body) && message == Message(e, w, body);
    assert body == StatementBody(e, p, organ);
    assert Or(w.sig, w.signature) == Some(e.encode64(e.sign(p.pems[organ], message)));
  }

  lemma ProposalUnforged(e: Engine, p: Proposed, all: seq<string>, organs: seq<string>, issued: set<Signed>,
                         honest: set<string>)
    requires Proposal.Correct(e) && Formation(e, all, p.pems) && (forall o :: o in organs ==> o in all)
    requires honest <= KeysOf(e, p.pems, all) && SignedIn(e, p, organs) <= issued
    ensures Unforged(e, issued, honest, RecordsFrom(e, p, organs))
  {
    var records := RecordsFrom(e, p, organs);
    forall i, key, message
      | 0 <= i < |records| && records[i].Some? && key in honest && Verifies(e, records[i].value, key, message)
      ensures WasSigned(issued, key, message)
    {
      RecordsAreSigned(e, p, organs, records[i]);
      var o :| o in organs && HasKey(p, o) && records[i] == Some(ToWire(RecordOf(e, p, o)));
      var o' :| o' in all && o' in p.pems && key == e.publicKey(p.pems[o']);
      RecordVerifies(e, p, all, o, o', message);
      var s := Signed(key, e.utf8(ORGAN_VERDICT_PAYLOAD_TYPE), StatementBody(e, p, o));
      assert s in SignedIn(e, p, organs);
    }
  }

  /** Every organ of a unanimous proposal supports it. */
  lemma ProposalSupport(e: Engine, p: Proposed, all: seq<string>, organs: seq<string>)
    requires Proposal.Correct(e) && Formation(e, all, p.pems) && p.verdicts == map[]
    requires Distinct(organs) && forall o :: o in organs ==> o in all
    ensures |Supporters(e, PublicKeys(e, p, all), p.hash, RecordsFrom(e, p, organs))| == |organs|
  {
    var keys := PublicKeys(e, p, all);
    CollectedAsSigned(e, p, organs);
    RenameKeepsChecks(e, p.hash, keys, Collected(e, p, organs));
    CountingAreSupporters(e, keys, p.hash, RecordsFrom(e, p, organs));
    ChecksAreVotes(e, p, keys, organs);
    AllVote(e, p, all, organs);
  }

  lemma AllVote(e: Engine, p: Proposed, all: seq<string>, organs: seq<string>)
    requires Formation(e, all, p.pems) && p.verdicts == map[]
    requires Distinct(organs) && forall o :: o in organs ==> o in all
    ensures |Voters(p, organs)| == |organs|
  {
    assert Voters(p, organs) == Elements(organs);
    ElementsCount(organs);
  }

  /** Keys that sign in one of two proposals only, allow one of the two actions only. */
  lemma ProposalsKeepToOne(e: Engine, p: Proposed, q: Proposed, all: seq<string>, lo: nat, hi: nat, honest: set<string>)
    requires Proposal.Correct(e) && Formation(e, all, p.pems) && p.pems == q.pems && p.hash != q.hash
    requires lo <= |all| && hi <= |all| && (lo <= hi ==> honest !! KeysOf(e, p.pems, all[lo..hi]))
    ensures KeepsToOne(e, SignedIn(e, p, all[..hi]) + SignedIn(e, q, all[lo..]), honest, p.hash, q.hash)
  {
    var issued := SignedIn(e, p, all[..hi]) + SignedIn(e, q, all[lo..]);
    forall key | key in honest && SignedFor(e, issued, key, p.hash)
      ensures !SignedFor(e, issued, key, q.hash)
    {
      var i := SignerOf(e, p, q, all[..hi], all[lo..], key);
      KeyHolder(e, p, q, all, lo, hi, i, key);
    }
  }

  /** Whoever allows the first action signed in the first proposal. */
  lemma SignerOf(e: Engine, p: Proposed, q: Proposed, first: seq<string>, second: seq<string>, key: string)
    returns (i: nat)
    requires Proposal.Correct(e) && p.hash != q.hash
    requires SignedFor(e, SignedIn(e, p, first) + SignedIn(e, q, second), key, p.hash)
    ensures i < |first| && HasKey(p, first[i]) && key == e.publicKey(p.pems[first[i]])
  {
    var s :| s in SignedIn(e, p, first) + SignedIn(e, q, second) && s.key == key && Allows(e, s.body, p.hash);
    assert s in SignedIn(e, p, first);
    var o :| o in first && HasKey(p, o) && s.key == e.publicKey(p.pems[o]) && s.body == StatementBody(e, p, o);
    i :| 0 <= i < |first| && first[i] == o;
  }

  /** If it also allows the second, its holder takes part in both. */
  lemma KeyHolder(e: Engine, p: Proposed, q: Proposed, all: seq<string>, lo: nat, hi: nat, i: nat, key: string)
    requires Proposal.Correct(e) && Formation(e, all, p.pems) && p.pems == q.pems && p.hash != q.hash
    requires lo <= |all| && i < hi <= |all| && key == e.publicKey(p.pems[all[i]])
    ensures SignedFor(e, SignedIn(e, p, all[..hi]) + SignedIn(e, q, all[lo..]), key, q.hash) ==>
      lo <= i && key in KeysOf(e, p.pems, all[lo..hi])
  {
    if SignedFor(e, SignedIn(e, p, all[..hi]) + SignedIn(e, q, all[lo..]), key, q.hash) {
      assert SignedIn(e, p, all[..hi]) + SignedIn(e, q, all[lo..])
        == SignedIn(e, q, all[lo..]) + SignedIn(e, p, all[..hi]);
      var j := SignerOf(e, q, p, all[lo..], all[..hi], key);
      SameKeySameOrgan(e, all, p.pems, all[i], all[lo + j]);
      assert i == lo + j;
      assert all[lo..hi][j] == all[i];
    }
  }

  lemma SameKeySameOrgan(e: Engine, all: seq<string>, pems: map<string, string>, o: string, o': string)
    requires Proposal.Correct(e) && Formation(e, all, pems) && o in all && o' in all
    requires e.publicKey(pems[o]) == e.publicKey(pems[o'])
    ensures o == o'
  {
    assert e.verify(e.publicKey(pems[o']), e.sign(pems[o], []), []);
  }

  lemma {:induction false} FewKeys(e: Engine, pems: map<string, string>, organs: seq<string>)
    ensures |KeysOf(e, pems, organs)| <= |organs|
  {
    if organs != [] {
      var rest, last := organs[..|organs| - 1], organs[|organs| - 1];
      FewKeys(e, pems, rest);
      assert organs == rest + [last];
      assert KeysOf(e, pems, organs) == KeysOf(e, pems, rest) + if last in pems then {e.publicKey(pems[last])} else {};
    }
  }

  lemma FormationKeys(e: Engine, p: Proposed, organs: seq<string>)
    requires Proposal.Correct(e) && Formation(e, organs, p.pems)
    ensures
      var keys := PublicKeys(e, p, organs);
      |keys| == |organs| && keys.Values == KeysOf(e, p.pems, organs) && DistinctKeys(keys)
  {
    var keys := PublicKeys(e, p, organs);
    assert keys.Keys == Elements(organs);
    ElementsCount(organs);
    assert |keys| == |keys.Keys|;
    forall v | v in KeysOf(e, p.pems, organs) ensures v in keys.Values {
      var o :| o in organs && o in p.pems && v == e.publicKey(p.pems[o]);
      assert o in keys && keys[o] == v;
    }
    forall a, b | a in keys && b in keys && keys[a] == keys[b] ensures a == b {
      SameKeySameOrgan(e, organs, p.pems, a, b);
    }
  }

  /** With any correct signature scheme, 2 * threshold - n Byzantine keys suffice for two proposals of conflicting
      actions that both verify: one among the first organs of the formation, one among the last. */
  lemma UnsafeBeyond(e: Engine, organs: seq<string>, pems: map<string, string>, notes: Notes, hash: string,
                     hash': string, threshold: nat, f: int)
    requires Proposal.Correct(e) && Formation(e, organs, pems) && hash != hash'
    requires ValidPolicy(threshold, |organs|) && f >= 0 && f >= 2 * threshold - |organs|
    ensures !Safe(e, threshold, |organs|, f)
  {
    var p, q, lo: nat := Unanimous(hash, pems, notes), Unanimous(hash', pems, notes), |organs| - threshold;
    var shared := if lo <= threshold then organs[lo..threshold] else [];
    FewKeys(e, pems, shared);
    Conflict(e, p, q, organs, lo, threshold, f, KeysOf(e, pems, shared));
  }

  /** Two proposals whose common organs are Byzantine. */
  lemma Conflict(e: Engine, p: Proposed, q: Proposed, organs: seq<string>, lo: nat, threshold: nat, f: int,
                 byzantine: set<string>)
    requires Proposal.Correct(e) && Formation(e, organs, p.pems) && p.verdicts == q.verdicts == map[]
      && p.pems == q.pems
    requires lo + threshold == |organs| && p.hash != q.hash && |byzantine| <= f
    requires lo <= threshold ==> KeysOf(e, p.pems, organs[lo..threshold]) <= byzantine
    ensures !Safe(e, threshold, |organs|, f)
  {
    var first, second, keys := organs[..threshold], organs[lo..], PublicKeys(e, p, organs);
    var issued, honest := SignedIn(e, p, first) + SignedIn(e, q, second), keys.Values - byzantine;
    FormationKeys(e, p, organs);
    PartDistinct(organs, 0, threshold);
    PartDistinct(organs, lo, |organs|);
    ProposalsKeepToOne(e, p, q, organs, lo, threshold, honest);
    ProposalUnforged(e, p, organs, first, issued, honest);
    ProposalUnforged(e, q, organs, second, issued, honest);
    BothSupported(e, p, q, organs, first, second);
    Counterexample(e, threshold, |organs|, f, keys, byzantine, issued, p.hash, RecordsFrom(e, p, first),
                   q.hash, RecordsFrom(e, q, second));
  }

  lemma PartDistinct<T>(s: seq<T>, lo: nat, hi: nat)
    requires Distinct(s) && lo <= hi <= |s|
    ensures Distinct(s[lo..hi]) && (forall x :: x in s[lo..hi] ==> x in s)
    ensures s[0..hi] == s[..hi] && s[lo..|s|] == s[lo..]
  {
  }

  lemma BothSupported(e: Engine, p: Proposed, q: Proposed, all: seq<string>, first: seq<string>, second: seq<string>)
    requires Proposal.Correct(e) && Formation(e, all, p.pems) && p.verdicts == q.verdicts == map[] && p.pems == q.pems
    requires Distinct(first) && (forall o :: o in first ==> o in all) && Distinct(second)
      && (forall o :: o in second ==> o in all)
    ensures |Supporters(e, PublicKeys(e, p, all), p.hash, RecordsFrom(e, p, first))| == |first|
    ensures |Supporters(e, PublicKeys(e, p, all), q.hash, RecordsFrom(e, q, second))| == |second|
  {
    ProposalSupport(e, p, all, first);
    ProposalSupport(e, q, all, second);
    assert PublicKeys(e, p, all) == PublicKeys(e, q, all);
  }

  lemma Counterexample(e: Engine, threshold: int, n: int, f: int, keys: map<string, string>, byzantine: set<string>,
                       issued: set<Signed>, hash: string, records: Records, hash': string, records': Records)
    requires hash != hash' && |keys| <= n && DistinctKeys(keys) && |byzantine| <= f
    requires KeepsToOne(e, issued, keys.Values - byzantine, hash, hash')
    requires Unforged(e, issued, keys.Values - byzantine, records)
      && Unforged(e, issued, keys.Values - byzantine, records')
    requires |Supporters(e, keys, hash, records)| >= threshold && |Supporters(e, keys, hash', records')| >= threshold
    ensures !Safe(e, threshold, n, f)
  {
    assert Assumptions(e, keys, n, f, byzantine, issued, hash, records, hash', records');
  }

  /** A policy is safe exactly against fewer than 2 * threshold - n Byzantine keys, with every correct signature scheme
      and every formation of n organs. */
  lemma SafeIff(e: Engine, organs: seq<string>, pems: map<string, string>, threshold: nat, f: nat)
    requires Proposal.Correct(e) && Formation(e, organs, pems) && ValidPolicy(threshold, |organs|)
    ensures Safe(e, threshold, |organs|, f) <==> f < 2 * threshold - |organs|
  {
    var n := |organs|;
    if f < 2 * threshold - n {
      forall keys, byzantine, issued, hash, records, hash', records'
        | Assumptions(e, keys, n, f, byzantine, issued, hash, records, hash', records')
        ensures |Supporters(e, keys, hash, records)| < threshold || |Supporters(e, keys, hash', records')| < threshold
      {
        QuorumSafety(e, keys, threshold, n, f, byzantine, issued, hash, records, hash', records');
      }
    } else {
      UnsafeBeyond(e, organs, pems, Notes("", "", ""), "a", "b", threshold, f);
    }
  }
}
