// The hash-chained job receipt ledger (sovereign/szl_mesh_agent.JobReceiptLedger).
module KhipuLedger {
  import opened Prelude
  import Pae

  const GENESIS_HASH := "0000000000000000000000000000000000000000000000000000000000000000"
  const PAYLOAD_TYPE := "application/vnd.szl.mesh.receipt+json"

  /** The hashed fields of a receipt. */
  datatype Body = Body(nodeId: string, jobId: string, seqNo: int, model: string, lambdaScore: real, tokensIn: int,
                       tokensOut: int, latencyMs: real, timestamp: string, receiptLabel: string)

  datatype Receipt = Receipt(body: Body, prevChainHash: string, chainHash: string)

  /** The DSSE-style envelope: a MAC over the pre-authentication encoding of the whole receipt. */
  datatype Envelope = Envelope(payload: bytes, mac: bytes)

  datatype Entry = Entry(receipt: Receipt, dsse: Envelope, chainHash: string, seqNo: int)

  /** The library functions the ledger calls. */
  datatype Suite = Suite(
    sha: bytes -> string,             // SHA-256, in hexadecimal
    utf8: string -> bytes,
    canonical: Body -> bytes,         // canonical JSON without the chain fields
    canonicalFull: Receipt -> bytes,  // canonical JSON of the whole receipt
    hmac: (bytes, bytes) -> bytes)

  /** chain_hash_n = SHA-256(prev_hash || body) */
  function KhipuHash(u: Suite, prev: string, body: bytes): string { u.sha(u.utf8(prev) + body) }

  function Seal(u: Suite, secret: bytes, r: Receipt): Envelope
  {
    var payload := u.canonicalFull(r);
    Envelope(payload, u.hmac(secret, Pae.Encode(u.utf8(PAYLOAD_TYPE), payload)))
  }

  // ---- what verification checks ----

  function Prev(chain: seq<Entry>, i: nat): string
    requires i <= |chain|
  {
    if i == 0 then GENESIS_HASH else chain[i - 1].chainHash
  }

  function Head(chain: seq<Entry>): string { Prev(chain, |chain|) }

  predicate LinkIntact(u: Suite, chain: seq<Entry>, i: nat)
    requires i < |chain|
  {
    && chain[i].chainHash == KhipuHash(u, Prev(chain, i), u.canonical(chain[i].receipt.body))
    && chain[i].receipt.body.seqNo == i
  }

  ghost predicate Intact(u: Suite, chain: seq<Entry>)
  {
    forall i :: 0 <= i < |chain| ==> LinkIntact(u, chain, i)
  }

  datatype Verdict = ChainIntact(count: nat) | ChainBroken(at: nat) | SeqMismatch(at: nat)

  class JobReceiptLedger {
    const suite: Suite
    const nodeId: string
    const secret: bytes
    var chain: seq<Entry>
    var headHash: string

    ghost predicate Valid()
      reads this
    {
      Intact(suite, chain) && headHash == Head(chain)
    }

    constructor (suite: Suite, nodeId: string, secret: bytes)
      ensures Valid() && chain == [] && this.suite == suite && this.nodeId == nodeId && this.secret == secret
    {
      this.suite := suite;
      this.nodeId := nodeId;
      this.secret := secret;
      chain, headHash := [], GENESIS_HASH;
    }

    /** Appends one receipt; nothing already in the chain changes. */
    method Append(jobId: string, model: string, lambdaScore: real, tokensIn: int, tokensOut: int, latencyMs: real,
                  receiptLabel: string, timestamp: string)
      returns (entry: Entry)
      requires Valid()
      modifies this
      ensures Valid()
      ensures entry == NewEntry(suite, secret, old(chain),
        Body(nodeId, jobId, |old(chain)|, model, lambdaScore, tokensIn, tokensOut, latencyMs, timestamp, receiptLabel))
      ensures chain == old(chain) + [entry]
    {
      var seqNo := |chain|;
      var body :=
        Body(nodeId, jobId, seqNo, model, lambdaScore, tokensIn, tokensOut, latencyMs, timestamp, receiptLabel);
      var chainHash := KhipuHash(suite, headHash, suite.canonical(body));
      var receipt := Receipt(body, headHash, chainHash);
      var envelope := Seal(suite, secret, receipt);
      entry := Entry(receipt, envelope, chainHash, seqNo);
      AppendIntact(suite, secret, chain, body);
      chain := chain + [entry];
      headHash := chainHash;
    }

    /** Recomputes every link with a running previous hash and reports the first that does not hold. */
    method VerifyChain() returns (v: Verdict)
      ensures v.ChainIntact? <==> Intact(suite, chain)
      ensures v.ChainIntact? ==> v.count == |chain|
      ensures !v.ChainIntact? ==>
        && v.at < |chain| && Intact(suite, chain[..v.at]) && !LinkIntact(suite, chain, v.at)
        && (v.ChainBroken? <==>
            chain[v.at].chainHash != suite.sha(HashInput(suite, chain, v.at)))
    {
      var prev := GENESIS_HASH;
      for i := 0 to |chain|
        invariant prev == Prev(chain, i)
        invariant forall j :: 0 <= j < i ==> LinkIntact(suite, chain, j)
      {
        forall j | 0 <= j < i ensures LinkIntact(suite, chain[..i], j) { assert LinkIntact(suite, chain, j); }
        var entry := chain[i];
        var expected := KhipuHash(suite, prev, suite.canonical(entry.receipt.body));
        if entry.chainHash != expected {
          assert !LinkIntact(suite, chain, i);
          return ChainBroken(i);
        }
        if entry.receipt.body.seqNo != i {
          assert !LinkIntact(suite, chain, i);
          return SeqMismatch(i);
        }
        prev := entry.chainHash;
      }
      return ChainIntact(|chain|);
    }
  }

  /** The entry for a body at the end of a chain. */
  function NewEntry(u: Suite, secret: bytes, chain: seq<Entry>, body: Body): Entry
  {
    var chainHash := KhipuHash(u, Head(chain), u.canonical(body));
    var receipt := Receipt(body, Head(chain), chainHash);
    Entry(receipt, Seal(u, secret, receipt), chainHash, |chain|)
  }

  /** An entry, part by part: the receipt states and hashes the previous entry's hash, and the envelope holds the whole
      receipt, with a MAC over its pre-authentication encoding under the ledger's payload type. */
  lemma EntryExact(u: Suite, secret: bytes, chain: seq<Entry>, body: Body)
    ensures
      var e := NewEntry(u, secret, chain, body);
      var prev := if chain == [] then GENESIS_HASH else chain[|chain| - 1].chainHash;
      && e.receipt.body == body && e.receipt.prevChainHash == prev && e.seqNo == |chain|
      && e.chainHash == e.receipt.chainHash == u.sha(u.utf8(prev) + u.canonical(body))
      && e.dsse.payload == u.canonicalFull(e.receipt)
      && e.dsse.mac == u.hmac(secret, Pae.EncodeJoined(u.utf8(PAYLOAD_TYPE), e.dsse.payload))
  {
    Pae.SameEncoding(u.utf8(PAYLOAD_TYPE), NewEntry(u, secret, chain, body).dsse.payload);
  }

  lemma AppendIntact(u: Suite, secret: bytes, chain: seq<Entry>, body: Body)
    requires Intact(u, chain) && body.seqNo == |chain|
    ensures Intact(u, chain + [NewEntry(u, secret, chain, body)])
  {
    var longer := chain + [NewEntry(u, secret, chain, body)];
    forall i | 0 <= i < |longer| ensures LinkIntact(u, longer, i) {
      if i < |chain| { assert LinkIntact(u, chain, i); }
    }
  }

  // ---- tamper evidence ----

  /** A hexadecimal digest is encoded in as many bytes as the genesis hash, and UTF-8 gives no two texts one encoding.
      No hash is assumed to be free of collisions. */
  ghost predicate Encodings(u: Suite)
  {
    && (forall x :: |u.utf8(u.sha(x))| == |u.utf8(GENESIS_HASH)|)
    && (forall s, t :: u.utf8(s) == u.utf8(t) ==> s == t)
  }

  /** Canonical JSON tells the receipts of these two chains apart. */
  ghost predicate TellsApart(u: Suite, a: seq<Entry>, b: seq<Entry>)
  {
    forall i, j :: 0 <= i < |a| && 0 <= j < |b| && u.canonical(a[i].receipt.body) == u.canonical(b[j].receipt.body) ==>
      a[i].receipt.body == b[j].receipt.body
  }

  /** The bytes hashed for link i of a chain. */
  function HashInput(u: Suite, chain: seq<Entry>, i: nat): bytes
    requires i < |chain|
  {
    u.utf8(Prev(chain, i)) + u.canonical(chain[i].receipt.body)
  }

  /** A hash input of one chain and a different one of the other have the same digest. */
  ghost predicate Collision(u: Suite, a: seq<Entry>, b: seq<Entry>)
  {
    exists i, j :: 0 <= i < |a| && 0 <= j < |b|
      && HashInput(u, a, i) != HashInput(u, b, j) && u.sha(HashInput(u, a, i)) == u.sha(HashInput(u, b, j))
  }

  function Bodies(chain: seq<Entry>): (r: seq<Body>)
    ensures |r| == |chain| && forall i :: 0 <= i < |chain| ==> r[i] == chain[i].receipt.body
  {
    seq(|chain|, i requires 0 <= i < |chain| => chain[i].receipt.body)
  }

  lemma BodiesSplit(chain: seq<Entry>)
    requires chain != []
    ensures Bodies(chain) == Bodies(chain[..|chain| - 1]) + [chain[|chain| - 1].receipt.body]
  {
  }

  lemma PrevWidth(u: Suite, chain: seq<Entry>, i: nat)
    requires Encodings(u) && Intact(u, chain) && i <= |chain|
    ensures |u.utf8(Prev(chain, i))| == |u.utf8(GENESIS_HASH)|
  {
    if i > 0 { assert LinkIntact(u, chain, i - 1); }
  }

  /** Equal hash inputs have equal previous hashes and equal bodies, although nothing separates the two parts. */
  lemma InputsSplit(u: Suite, a: seq<Entry>, i: nat, b: seq<Entry>, j: nat)
    requires Encodings(u) && Intact(u, a) && Intact(u, b) && i < |a| && j < |b| && TellsApart(u, a, b)
    requires HashInput(u, a, i) == HashInput(u, b, j)
    ensures Prev(a, i) == Prev(b, j) && a[i].receipt.body == b[j].receipt.body && i == j
  {
    PrevWidth(u, a, i);
    PrevWidth(u, b, j);
    var x, y := HashInput(u, a, i), HashInput(u, b, j);
    var w := |u.utf8(GENESIS_HASH)|;
    assert x[..w] == u.utf8(Prev(a, i)) && x[w..] == u.canonical(a[i].receipt.body);
    assert y[..w] == u.utf8(Prev(b, j)) && y[w..] == u.canonical(b[j].receipt.body);
    assert LinkIntact(u, a, i) && LinkIntact(u, b, j);
  }

  lemma PrefixIntact(u: Suite, chain: seq<Entry>, k: nat)
    requires Intact(u, chain) && k <= |chain|
    ensures Intact(u, chain[..k])
  {
    forall i | 0 <= i < k ensures LinkIntact(u, chain[..k], i) { assert LinkIntact(u, chain, i); }
  }

  lemma CollisionInPrefix(u: Suite, a: seq<Entry>, b: seq<Entry>, m: nat, n: nat)
    requires m <= |a| && n <= |b| && Collision(u, a[..m], b[..n])
    ensures Collision(u, a, b)
  {
    var i, j :| 0 <= i < m && 0 <= j < n && HashInput(u, a[..m], i) != HashInput(u, b[..n], j)
      && u.sha(HashInput(u, a[..m], i)) == u.sha(HashInput(u, b[..n], j));
    assert HashInput(u, a[..m], i) == HashInput(u, a, i) && HashInput(u, b[..n], j) == HashInput(u, b, j);
  }

  /** Two chains that verify and end in the same hash hold the same receipts in the same order, and as many of
      them; otherwise two of the strings they hashed collide. */
  lemma {:induction false} TamperEvidence(u: Suite, a: seq<Entry>, b: seq<Entry>)
    requires Encodings(u) && Intact(u, a) && Intact(u, b) && a != [] && b != []
    requires TellsApart(u, a, b) && Head(a) == Head(b)
    ensures Bodies(a) == Bodies(b) || Collision(u, a, b)
    decreases |a|
  {
    var i, j := |a| - 1, |b| - 1;
    assert LinkIntact(u, a, i) && LinkIntact(u, b, j);
    if HashInput(u, a, i) == HashInput(u, b, j) {
      InputsSplit(u, a, i, b, j);
      BodiesSplit(a);
      BodiesSplit(b);
      if i > 0 {
        PrefixIntact(u, a, i);
        PrefixIntact(u, b, i);
        var past, past' := a[..i], b[..i];
        TamperEvidence(u, past, past');
        if Collision(u, past, past') { CollisionInPrefix(u, a, b, i, i); }
      }
    }
  }

  /** What verification cannot see: whether entries are missing at the end, what a receipt says its previous hash
      is, and its envelope. */
  lemma VerificationBlindSpots(u: Suite, a: seq<Entry>, b: seq<Entry>, k: nat)
    requires |a| == |b| && k <= |a|
    requires forall i :: 0 <= i < |a| ==> a[i].chainHash == b[i].chainHash && a[i].receipt.body == b[i].receipt.body
    requires Intact(u, a)
    ensures Intact(u, b) && Intact(u, b[..k])
  {
    forall i | 0 <= i < |b| ensures LinkIntact(u, b, i) { assert LinkIntact(u, a, i); }
    PrefixIntact(u, b, k);
  }
}
