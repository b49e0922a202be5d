// Collecting a certificate (propose_action), and verifying what was collected.
module Proposal {
  import opened Prelude
  import opened Orders
  import opened Quorum
  import Pae

  /** The fields of a signed statement that do not differ between organs. */
  datatype Notes = Notes(reason: string, leanSha: string, ts: string)

  /** sign_verdict */
  function SignVerdict(e: Engine, organ: string, hash: string, verdict: string, pem: string, notes: Notes): Witness
  {
    var keyid := organ + "-cosign";
    var body := e.canonical(Statement(organ, keyid, hash, verdict, notes.reason, notes.leanSha, notes.ts));
    var sig := e.sign(pem, Pae.Encode(e.utf8(ORGAN_VERDICT_PAYLOAD_TYPE), body));
    Witness(Some(organ), Some(keyid), Text(ORGAN_VERDICT_PAYLOAD_TYPE), Some(e.encode64(body)), None,
            Some(e.encode64(sig)), Some(verdict))
  }

  datatype Proposed = Proposed(hash: string, pems: map<string, string>, verdicts: map<string, string>, notes: Notes)

  predicate HasKey(p: Proposed, organ: string) { organ in p.pems && p.pems[organ] != "" }

  function VerdictOf(p: Proposed, organ: string): string
  {
    if organ in p.verdicts then p.verdicts[organ] else ALLOW
  }

  function NotesOf(p: Proposed, organ: string): Notes
  {
    if VerdictOf(p, organ) == ALLOW then p.notes
    else p.notes.(reason := if organ + ":reason" in p.verdicts then p.verdicts[organ + ":reason"] else "dissent")
  }

  function RecordOf(e: Engine, p: Proposed, organ: string): Witness
    requires HasKey(p, organ)
  {
    SignVerdict(e, organ, p.hash, VerdictOf(p, organ), p.pems[organ], NotesOf(p, organ))
  }

  /** The records of the organs that have a key, in order. */
  function Collected(e: Engine, p: Proposed, organs: seq<string>): seq<Option<Witness>>
  {
    if organs == [] then []
    else
      var organ := organs[|organs| - 1];
      Collected(e, p, organs[..|organs| - 1]) + if HasKey(p, organ) then [Some(RecordOf(e, p, organ))] else []
  }

  /** What an organ's record says: the signature is over the DSSE encoding of its statement, whose reason is the
      proposal's own if the organ allows the action, and else the organ's, or "dissent". */
  lemma RecordStates(e: Engine, p: Proposed, organ: string)
    requires HasKey(p, organ)
    ensures
      var w, verdict := RecordOf(e, p, organ), if organ in p.verdicts then p.verdicts[organ] else "allow";
      var reason :=
        if verdict == "allow" then p.notes.reason
        else if organ + ":reason" in p.verdicts then p.verdicts[organ + ":reason"] else "dissent";
      var body := e.canonical(
        Statement(organ, organ + "-cosign", p.hash, verdict, reason, p.notes.leanSha, p.notes.ts));
      && w.organ == Some(organ) && w.keyid == Some(organ + "-cosign") && w.verdict == Some(verdict)
      && w.payloadType == Text(ORGAN_VERDICT_PAYLOAD_TYPE) && w.payload == Some(e.encode64(body)) && w.sig == None
      && w.signature == Some(e.encode64(
           e.sign(p.pems[organ], Pae.EncodeJoined(e.utf8(ORGAN_VERDICT_PAYLOAD_TYPE), body))))
  {
    var verdict, notes := VerdictOf(p, organ), NotesOf(p, organ);
    Pae.SameEncoding(e.utf8(ORGAN_VERDICT_PAYLOAD_TYPE),
      e.canonical(Statement(organ, organ + "-cosign", p.hash, verdict, notes.reason, notes.leanSha, notes.ts)));
  }

  /** Each organ in turn adds its record if it has a key, and nothing otherwise. */
  lemma {:induction false} CollectedInTurn(e: Engine, p: Proposed, a: seq<string>, organ: string, b: seq<string>)
    ensures Collected(e, p, []) == []
    ensures Collected(e, p, [organ]) == if HasKey(p, organ) then [Some(RecordOf(e, p, organ))] else []
    ensures Collected(e, p, a + b) == Collected(e, p, a) + Collected(e, p, b)
    decreases |b|
  {
    assert [organ][..0] == [];
    if b == [] {
      assert a + b == a;
    } else {
      var rest := b[..|b| - 1];
      CollectedInTurn(e, p, a, organ, rest);
      assert (a + b)[..|a + b| - 1] == a + rest;
    }
  }

  function PublicKeys(e: Engine, p: Proposed, organs: seq<string>): map<string, string>
  {
    map o | o in organs && HasKey(p, o) :: e.publicKey(p.pems[o])
  }

  /** OrganVerdict.from_dict, on a record as the organ wrote it. */
  function FromDict(w: Witness): OrganVerdict
  {
    OrganVerdict(w.organ, w.keyid, TypeOf(w), w.payload, w.signature)
  }

  function Direct(ws: seq<Option<Witness>>): seq<Option<OrganVerdict>>
  {
    if ws == [] then []
    else Direct(ws[..|ws| - 1]) + [match ws[|ws| - 1] case None => None case Some(w) => Some(FromDict(w))]
  }

  /** The engine's checks of what these organs sign. */
  function Tallied(e: Engine, p: Proposed, keys: map<string, string>, organs: seq<string>): seq<OrganCheck>
  {
    Checks(e, p.hash, keys, Direct(Collected(e, p, organs)))
  }

  function DirectCount(e: Engine, p: Proposed, organs: seq<string>): nat
  {
    Counted(Tallied(e, p, PublicKeys(e, p, organs), organs))
  }

  lemma NextOrgan(e: Engine, p: Proposed, organs: seq<string>, i: nat)
    requires i < |organs|
    ensures
      var before, organ := organs[..i], organs[i];
      if HasKey(p, organ) then
        && Collected(e, p, organs[..i + 1]) == Collected(e, p, before) + [Some(RecordOf(e, p, organ))]
        && Direct(Collected(e, p, organs[..i + 1]))
             == Direct(Collected(e, p, before)) + [Some(FromDict(RecordOf(e, p, organ)))]
        && PublicKeys(e, p, organs[..i + 1]) == PublicKeys(e, p, before)[organ := e.publicKey(p.pems[organ])]
      else
        && Collected(e, p, organs[..i + 1]) == Collected(e, p, before)
        && PublicKeys(e, p, organs[..i + 1]) == PublicKeys(e, p, before)
  {
    var before, organ := organs[..i], organs[i];
    assert organs[..i + 1][..i] == before && organs[..i + 1] == before + [organ];
    if HasKey(p, organ) {
      var ws := Collected(e, p, organs[..i + 1]);
      assert ws[..|ws| - 1] == Collected(e, p, before);
    }
  }

  method ProposeAction(e: Engine, p: Proposed, organs: seq<string>, threshold: int, n: int)
    returns (r: Result<Certificate, string>)
    ensures r.Success? <==> 1 <= threshold <= n
    ensures r.Success? ==>
      var count := DirectCount(e, p, organs);
      r.value == Certificate(p.hash, Collected(e, p, organs), threshold, n, count >= threshold, count)
  {
    if !ValidPolicy(threshold, n) { return Failure("quorum policy requires integer 1 <= threshold <= n"); }
    var witnesses: seq<Option<Witness>>, items: seq<Option<OrganVerdict>>, keys: map<string, string> := [], [], map[];
    for i := 0 to |organs|
      invariant witnesses == Collected(e, p, organs[..i]) && items == Direct(witnesses)
      invariant keys == PublicKeys(e, p, organs[..i])
    {
      var organ := organs[i];
      NextOrgan(e, p, organs, i);
      if HasKey(p, organ) {
        var verdict := VerdictOf(p, organ);
        var record := SignVerdict(e, organ, p.hash, verdict, p.pems[organ], NotesOf(p, organ));
        witnesses := witnesses + [Some(record)];
        items := items + [Some(FromDict(record))];
        keys := keys[organ := e.publicKey(p.pems[organ])];
      }
    }
    assert organs[..|organs|] == organs;
    var result := Tally(e, p.hash, items, keys, threshold);
    return Success(Certificate(p.hash, witnesses, threshold, n, result.canonical, result.count));
  }

  // ---- the to_dict rename loses nothing ----

  lemma RenameKeepsCheck(e: Engine, hash: string, keys: map<string, string>, w: Witness)
    requires w.sig == None
    ensures Check(e, hash, keys, Some(Admitted(ToWire(w)))) == Check(e, hash, keys, Some(FromDict(w)))
  {
  }

  ghost predicate AsSigned(ws: seq<Option<Witness>>)
  {
    forall i :: 0 <= i < |ws| ==> ws[i].Some? && ws[i].value.sig == None
  }

  lemma ChecksNext(e: Engine, hash: string, keys: map<string, string>, items: seq<Option<OrganVerdict>>,
                   item: Option<OrganVerdict>)
    ensures Checks(e, hash, keys, items + [item]) == Checks(e, hash, keys, items) + [Check(e, hash, keys, item)]
  {
    assert (items + [item])[..|items|] == items;
  }

  lemma ItemsNext(ws: seq<Option<Witness>>)
    requires ws != [] && ws[|ws| - 1].Some?
    ensures Items(WireRecords(ws)) == Items(WireRecords(ws[..|ws| - 1])) + [Some(Admitted(ToWire(ws[|ws| - 1].value)))]
  {
    var records := WireRecords(ws);
    assert records[..|records| - 1] == WireRecords(ws[..|ws| - 1])
      && records[|records| - 1] == Some(ToWire(ws[|ws| - 1].value));
  }

  lemma {:induction false} RenameKeepsChecks(e: Engine, hash: string, keys: map<string, string>,
                                             ws: seq<Option<Witness>>)
    requires AsSigned(ws)
    ensures Checks(e, hash, keys, Items(WireRecords(ws))) == Checks(e, hash, keys, Direct(ws))
  {
    if ws != [] {
      var rest, w := ws[..|ws| - 1], ws[|ws| - 1].value;
      RenameKeepsChecks(e, hash, keys, rest);
      RenameKeepsCheck(e, hash, keys, w);
      ItemsNext(ws);
      ChecksNext(e, hash, keys, Items(WireRecords(rest)), Some(Admitted(ToWire(w))));
      ChecksNext(e, hash, keys, Direct(rest), Some(FromDict(w)));
    }
  }

  lemma {:induction false} CollectedAsSigned(e: Engine, p: Proposed, organs: seq<string>)
    ensures AsSigned(Collected(e, p, organs))
  {
    if organs != [] { CollectedAsSigned(e, p, organs[..|organs| - 1]); }
  }

  /** What verification counts in a proposal's own certificate, under the proposal's keys. */
  ghost function VerifiedOrgans(e: Engine, p: Proposed, organs: seq<string>): set<string>
  {
    Supporters(e, PublicKeys(e, p, organs), p.hash, WireRecords(Collected(e, p, organs)))
  }

  /** Verification counts the organs of the very checks that the proposal tallied. */
  lemma VerifiedFromTally(e: Engine, p: Proposed, organs: seq<string>)
    ensures VerifiedOrgans(e, p, organs)
      == CountingOrgans(Tallied(e, p, PublicKeys(e, p, organs), organs))
  {
    var keys, ws := PublicKeys(e, p, organs), Collected(e, p, organs);
    CollectedAsSigned(e, p, organs);
    RenameKeepsChecks(e, p.hash, keys, ws);
    CountingAreSupporters(e, keys, p.hash, WireRecords(ws));
  }

  // ---- distinct organs ----

  function CheckOf(e: Engine, p: Proposed, keys: map<string, string>, organ: string): OrganCheck
    requires HasKey(p, organ)
  {
    Check(e, p.hash, keys, Some(FromDict(RecordOf(e, p, organ))))
  }

  /** Each organ with a key adds its check at the end. */
  lemma TalliedNext(e: Engine, p: Proposed, keys: map<string, string>, rest: seq<string>, organ: string)
    ensures
      if HasKey(p, organ) then
        Tallied(e, p, keys, rest + [organ]) == Tallied(e, p, keys, rest) + [CheckOf(e, p, keys, organ)]
      else Tallied(e, p, keys, rest + [organ]) == Tallied(e, p, keys, rest)
  {
    assert (rest + [organ])[..|rest|] == rest;
    if HasKey(p, organ) {
      var ws := Collected(e, p, rest + [organ]);
      assert ws[..|ws| - 1] == Collected(e, p, rest);
      var items := Direct(ws);
      assert items[..|items| - 1] == Direct(ws[..|ws| - 1]);
    } else {
      assert Collected(e, p, rest + [organ]) == Collected(e, p, rest);
    }
  }

  lemma CheckNamesOrgan(e: Engine, p: Proposed, keys: map<string, string>, organ: string)
    requires HasKey(p, organ)
    ensures CheckOf(e, p, keys, organ).organ == Some(organ)
  {
  }

  lemma AddCheck(checks: seq<OrganCheck>, c: OrganCheck)
    requires c.organ.Some?
    ensures Counted(checks + [c]) == Counted(checks) + if c.counts then 1 else 0
    ensures CountingOrgans(checks + [c]) == CountingOrgans(checks) + if c.counts then {c.organ.value} else {}
  {
    assert (checks + [c])[..|checks|] == checks;
    assert forall x :: x in checks + [c] <==> x in checks || x == c;
  }

  /** What listing one more organ adds to the tally. */
  lemma CountNext(e: Engine, p: Proposed, keys: map<string, string>, rest: seq<string>, organ: string)
    returns (more: bool)
    ensures more <==> HasKey(p, organ) && CheckOf(e, p, keys, organ).counts
    ensures Counted(Tallied(e, p, keys, rest + [organ])) == Counted(Tallied(e, p, keys, rest)) + if more then 1 else 0
    ensures CountingOrgans(Tallied(e, p, keys, rest + [organ]))
      == CountingOrgans(Tallied(e, p, keys, rest)) + if more then {organ} else {}
  {
    TalliedNext(e, p, keys, rest, organ);
    more := false;
    if HasKey(p, organ) {
      CheckNamesOrgan(e, p, keys, organ);
      AddCheck(Tallied(e, p, keys, rest), CheckOf(e, p, keys, organ));
      more := CheckOf(e, p, keys, organ).counts;
    }
  }

  lemma DistinctRest(organs: seq<string>)
    requires Distinct(organs) && organs != []
    ensures
      var rest, organ := organs[..|organs| - 1], organs[|organs| - 1];
      && Distinct(rest) && organs == rest + [organ]
      && organ !in Elements(rest) && Elements(organs) == Elements(rest) + {organ}
  {
    assert organs == organs[..|organs| - 1] + [organs[|organs| - 1]];
  }

  /** The tally counts only organs of the list, and each of them once if it is listed once. */
  lemma {:induction false} DistinctCount(e: Engine, p: Proposed, keys: map<string, string>, organs: seq<string>)
    requires Distinct(organs)
    ensures CountingOrgans(Tallied(e, p, keys, organs)) <= Elements(organs)
    ensures |CountingOrgans(Tallied(e, p, keys, organs))| == Counted(Tallied(e, p, keys, organs))
  {
    if organs != [] {
      var rest, organ := organs[..|organs| - 1], organs[|organs| - 1];
      DistinctRest(organs);
      DistinctCount(e, p, keys, rest);
      var _ := CountNext(e, p, keys, rest, organ);
    }
  }

  /** A proposal among distinct organs is canonical exactly when its certificate verifies under their keys: both count
      the same organs, whatever the signature scheme does. */
  lemma ProposedIffVerified(e: Engine, p: Proposed, organs: seq<string>)
    requires Distinct(organs)
    ensures |VerifiedOrgans(e, p, organs)| == DirectCount(e, p, organs)
  {
    VerifiedFromTally(e, p, organs);
    DistinctCount(e, p, PublicKeys(e, p, organs), organs);
  }

  // ---- repeated organs ----

  /** Signatures made with a key verify under its public key, and what is signed can be read back. */
  ghost predicate Correct(e: Engine)
  {
    && (forall x :: e.decode64(e.encode64(x)) == Some(x)) && (forall x :: x != [] ==> e.encode64(x) != "")
    && (forall k, m :: e.verify(e.publicKey(k), e.sign(k, m), m) && e.sign(k, m) != [])
    && (forall k :: e.publicKey(k) != "")
    && (forall s :: e.canonical(s) != [] && e.parse(e.canonical(s)) == Some(Claim(Some(s.actionHash), Some(s.verdict))))
  }

  predicate VotesFor(p: Proposed, organ: string) { HasKey(p, organ) && VerdictOf(p, organ) == ALLOW }

  /** The positions in the list of organs that vote for the action, repeats included. */
  function Votes(p: Proposed, organs: seq<string>): nat
  {
    if organs == [] then 0
    else Votes(p, organs[..|organs| - 1]) + if VotesFor(p, organs[|organs| - 1]) then 1 else 0
  }

  function Voters(p: Proposed, organs: seq<string>): set<string> { set o | o in organs && VotesFor(p, o) }

  lemma VotersNext(p: Proposed, rest: seq<string>, organ: string)
    ensures Voters(p, rest + [organ]) == Voters(p, rest) + if VotesFor(p, organ) then {organ} else {}
    ensures Votes(p, rest + [organ]) == Votes(p, rest) + if VotesFor(p, organ) then 1 else 0
  {
    assert forall o :: o in rest + [organ] <==> o in rest || o == organ;
    assert (rest + [organ])[..|rest|] == rest;
  }

  lemma SignedCounts(e: Engine, p: Proposed, keys: map<string, string>, organ: string)
    requires Correct(e) && HasKey(p, organ) && organ in keys && keys[organ] == e.publicKey(p.pems[organ])
    ensures
      var c := CheckOf(e, p, keys, organ);
      c.organ == Some(organ) && (c.counts <==> VotesFor(p, organ))
  {
  }

  lemma {:induction false} ChecksAreVotes(e: Engine, p: Proposed, keys: map<string, string>, organs: seq<string>)
    requires Correct(e)
    requires forall o :: o in organs && HasKey(p, o) ==> o in keys && keys[o] == e.publicKey(p.pems[o])
    ensures Counted(Tallied(e, p, keys, organs)) == Votes(p, organs)
    ensures CountingOrgans(Tallied(e, p, keys, organs)) == Voters(p, organs)
  {
    if organs != [] {
      var rest, organ := organs[..|organs| - 1], organs[|organs| - 1];
      assert organs == rest + [organ];
      ChecksAreVotes(e, p, keys, rest);
      var counts := CountNext(e, p, keys, rest, organ);
      VotersNext(p, rest, organ);
      if HasKey(p, organ) { SignedCounts(e, p, keys, organ); }
    }
  }

  /** When organs repeat, the proposal counts every repeat and the verification does not: they disagree exactly when
      the threshold lies above the number of voters and within the number of votes. */
  lemma AgreeIff(e: Engine, p: Proposed, organs: seq<string>, threshold: int)
    requires Correct(e)
    ensures
      (DirectCount(e, p, organs) >= threshold <==> |VerifiedOrgans(e, p, organs)| >= threshold) <==>
      !(|Voters(p, organs)| < threshold <= Votes(p, organs))
  {
    VerifiedFromTally(e, p, organs);
    ChecksAreVotes(e, p, PublicKeys(e, p, organs), organs);
    OrgansAtMostCounted(Tallied(e, p, PublicKeys(e, p, organs), organs));
  }

  /** One organ listed three times proposes a canonical 3-of-4 certificate that does not verify. */
  lemma RepeatedOrganDisagrees(e: Engine, p: Proposed, organ: string)
    requires Correct(e) && VotesFor(p, organ)
    ensures DirectCount(e, p, [organ, organ, organ]) >= 3 && |VerifiedOrgans(e, p, [organ, organ, organ])| < 3
  {
    var organs := [organ, organ, organ];
    VerifiedFromTally(e, p, organs);
    ChecksAreVotes(e, p, PublicKeys(e, p, organs), organs);
    assert organs[..2] == [organ, organ] && organs[..2][..1] == [organ];
    assert Votes(p, [organ]) == 1 && Votes(p, [organ, organ]) == 2;
    assert Voters(p, organs) == {organ};
  }
}
