// A signature scheme in which everything the quorum results ask of one holds: those hypotheses can be met.
module IdealScheme {
  import opened Prelude
  import opened Orders
  import opened Quorum
  import KhipuLedger
  import Pae
  import Proposal
  import QuorumSafety

  // ---- texts as bytes ----

  predicate IsCode(c: int) { 0 <= c < 0xD800 || 0xE000 <= c < 0x11_0000 }

  /** Three bytes for each character. */
  function Wide(s: string): bytes
  {
    if s == [] then []
    else
      var c := s[0] as int;
      [(c / 65536) as byte, (c / 256 % 256) as byte, (c % 256) as byte] + Wide(s[1..])
  }

  function Narrow(b: bytes): Option<string>
  {
    if b == [] then Some([])
    else if |b| < 3 then None
    else
      var c := b[0] as int * 65536 + b[1] as int * 256 + b[2] as int;
      var rest := Narrow(b[3..]);
      if IsCode(c) && rest.Some? then Some([c as char] + rest.value) else None
  }

  lemma {:induction false} NarrowWide(s: string)
    ensures Narrow(Wide(s)) == Some(s)
  {
    if s != [] {
      NarrowWide(s[1..]);
      var b, c := Wide(s), s[0] as int;
      assert b[3..] == Wide(s[1..]);
      assert b[0] as int * 65536 + b[1] as int * 256 + b[2] as int == c;
      assert s == [s[0]] + s[1..];
    }
  }

  function Chars(b: bytes): string { seq(|b|, i requires 0 <= i < |b| => b[i] as int as char) }

  function FromChars(s: string): Option<bytes>
  {
    if forall i :: 0 <= i < |s| ==> s[i] as int < 256
    then Some(seq(|s|, i requires 0 <= i < |s| && s[i] as int < 256 => s[i] as int as byte))
    else None
  }

  lemma CharsBack(b: bytes)
    ensures FromChars(Chars(b)) == Some(b)
  {
    assert forall i :: 0 <= i < |b| ==> Chars(b)[i] as int == b[i] as int;
    assert FromChars(Chars(b)).value == b;
  }

  /** The encodings that tamper evidence asks for exist, whatever the hash, as long as digests have one length. */
  lemma EncodingsExist(u: KhipuLedger.Suite)
    requires u.utf8 == Wide && forall x :: |u.sha(x)| == |KhipuLedger.GENESIS_HASH|
    ensures KhipuLedger.Encodings(u)
  {
    forall s: string ensures |Wide(s)| == 3 * |s| { WideLength(s); }
    forall s, t | Wide(s) == Wide(t) ensures s == t {
      NarrowWide(s);
      NarrowWide(t);
    }
  }

  lemma {:induction false} WideLength(s: string)
    ensures |Wide(s)| == 3 * |s|
  {
    if s != [] { WideLength(s[1..]); }
  }

  // ---- the scheme ----

  /** A public key names its private key, and a signature is the private key with the message. */
  function PublicKey(key: string): string { "public " + key }

  function Sign(key: string, message: bytes): bytes { Pae.Encode(Wide(PublicKey(key)), message) }

  predicate Verify(key: string, sig: bytes, message: bytes) { sig == Pae.Encode(Wide(key), message) }

  function Canonical(s: Statement): bytes { Pae.Encode(Wide(s.actionHash), Wide(s.verdict)) }

  function Parse(b: bytes): Option<Claim>
  {
    match Pae.Decode(b)
    case None => None
    case Some((hash, verdict)) =>
      if Narrow(hash).Some? && Narrow(verdict).Some? then Some(Claim(Narrow(hash), Narrow(verdict))) else None
  }

  function Ideal(): Engine { Engine(Wide, Canonical, Parse, Chars, FromChars, Sign, PublicKey, Verify) }

  lemma ParseBack(s: Statement)
    ensures Canonical(s) != [] && Parse(Canonical(s)) == Some(Claim(Some(s.actionHash), Some(s.verdict)))
  {
    Pae.DecodeExact(Canonical(s), Wide(s.actionHash), Wide(s.verdict));
    NarrowWide(s.actionHash);
    NarrowWide(s.verdict);
  }

  /** The scheme is correct. */
  lemma IdealCorrect()
    ensures Proposal.Correct(Ideal())
  {
    var e := Ideal();
    forall x ensures e.decode64(e.encode64(x)) == Some(x) { CharsBack(x); }
    forall x | x != [] ensures e.encode64(x) != "" { assert |Chars(x)| == |x|; }
    forall s
      ensures e.canonical(s) != [] && e.parse(e.canonical(s)) == Some(Claim(Some(s.actionHash), Some(s.verdict)))
    {
      ParseBack(s);
    }
  }

  /** Organs with keys of their own make a formation. */
  lemma IdealFormation(organs: seq<string>, pems: map<string, string>)
    requires Distinct(organs) && forall o :: o in organs ==> o in pems && pems[o] != ""
    requires forall o, o' :: o in organs && o' in organs && pems[o] == pems[o'] ==> o == o'
    ensures QuorumSafety.Formation(Ideal(), organs, pems)
  {
    forall o, o', m | o in organs && o' in organs && Verify(PublicKey(pems[o']), Sign(pems[o], m), m) ensures o == o' {
      Pae.EncodeInjective(Wide(PublicKey(pems[o])), m, Wide(PublicKey(pems[o'])), m);
      NarrowWide(PublicKey(pems[o]));
      NarrowWide(PublicKey(pems[o']));
      SameTail("public ", pems[o], pems[o']);
    }
  }

  lemma SameTail(p: string, a: string, b: string)
    requires p + a == p + b
    ensures a == b
  {
    assert (p + a)[|p|..] == a && (p + b)[|p|..] == b;
  }
}
