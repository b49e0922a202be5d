// Decimal numerals and the DSSE pre-authentication encoding (DSSE protocol.md, "Signature Definition"):
//   PAE(type, body) = "DSSEv1" SP LEN(type) SP type SP LEN(body) SP body
module Decimal {
  import opened Prelude

  type digit = d: int | 0 <= d < 10

  /** The digits of str(n), most significant first. */
  function Digits(n: nat): (ds: seq<digit>)
    ensures ds != []
  {
    if n < 10 then [n] else Digits(n / 10) + [n % 10]
  }

  /** No leading zeros. */
  lemma {:induction false} NoLeadingZero(n: nat)
    ensures |Digits(n)| > 1 ==> Digits(n)[0] != 0
  {
    if n >= 10 { NoLeadingZero(n / 10); }
  }

  /** int() of a digit string. */
  function Number(ds: seq<digit>): nat
  {
    if ds == [] then 0 else 10 * Number(ds[..|ds| - 1]) + ds[|ds| - 1]
  }

  lemma {:induction false} NumberOfDigits(n: nat)
    ensures Number(Digits(n)) == n
  {
    if n >= 10 {
      NumberOfDigits(n / 10);
      var ds := Digits(n);
      assert ds[..|ds| - 1] == Digits(n / 10);
    }
  }

  predicate IsDigit(b: byte) { 48 <= b < 58 }

  function ToByte(d: digit): byte { (48 + d as int) as byte }

  function FromByte(b: byte): digit
    requires IsDigit(b)
  {
    b as int - 48
  }

  function ToBytes(ds: seq<digit>): bytes
  {
    seq(|ds|, i requires 0 <= i < |ds| => ToByte(ds[i]))
  }

  function FromBytes(bs: bytes): seq<digit>
    requires forall i :: 0 <= i < |bs| ==> IsDigit(bs[i])
  {
    seq<digit>(|bs|, i requires 0 <= i < |bs| && IsDigit(bs[i]) => FromByte(bs[i]))
  }

  /** str(n).encode() */
  function Encode(n: nat): bytes { ToBytes(Digits(n)) }

  lemma EncodeDecodes(n: nat)
    ensures Encode(n) != [] && (forall i :: 0 <= i < |Encode(n)| ==> IsDigit(Encode(n)[i]))
    ensures Number(FromBytes(Encode(n))) == n
  {
    NumberOfDigits(n);
    assert FromBytes(Encode(n)) == Digits(n);
  }

  /** str(n) */
  function Text(n: nat): string
  {
    var ds := Digits(n);
    seq(|ds|, i requires 0 <= i < |ds| => DigitChar(ds[i]))
  }

  function DigitChar(d: digit): char { '0' + d as char }

  lemma TextInjective(m: nat, n: nat)
    requires Text(m) == Text(n)
    ensures m == n
  {
    var a, b := Digits(m), Digits(n);
    assert |Text(m)| == |a| && |Text(n)| == |b|;
    forall i | 0 <= i < |a| ensures a[i] == b[i] {
      assert Text(m)[i] == DigitChar(a[i]) && Text(n)[i] == DigitChar(b[i]);
    }
    assert a == b;
    NumberOfDigits(m);
    NumberOfDigits(n);
  }
}

module Pae {
  import opened Prelude
  import Decimal

  const SPACE: byte := 32

  // b"DSSEv1"
  const MAGIC: bytes := [68, 83, 83, 69, 118, 49]

  /** The `+`-concatenating form, used by the agent and by the consensus engine. */
  function Encode(t: bytes, body: bytes): bytes
  {
    MAGIC + [SPACE] + Decimal.Encode(|t|) + [SPACE] + t + [SPACE] + Decimal.Encode(|body|) + [SPACE] + body
  }

  /** b" ".join(parts) */
  function Join(parts: seq<bytes>): bytes
  {
    if |parts| == 0 then []
    else if |parts| == 1 then parts[0]
    else parts[0] + [SPACE] + Join(parts[1..])
  }

  /** The joining form, used by the receipts module. */
  function EncodeJoined(t: bytes, body: bytes): bytes
  {
    Join([MAGIC, Decimal.Encode(|t|), t, Decimal.Encode(|body|), body])
  }

  lemma JoinCons(x: bytes, rest: seq<bytes>)
    requires rest != []
    ensures Join([x] + rest) == x + [SPACE] + Join(rest)
  {
    assert ([x] + rest)[1..] == rest;
  }

  lemma SameEncoding(t: bytes, body: bytes)
    ensures EncodeJoined(t, body) == Encode(t, body)
  {
    var n, m := Decimal.Encode(|t|), Decimal.Encode(|body|);
    JoinFive(MAGIC, n, t, m, body);
  }

  lemma JoinFive(a: bytes, b: bytes, c: bytes, d: bytes, e: bytes)
    ensures Join([a, b, c, d, e]) == a + [SPACE] + (b + [SPACE] + (c + [SPACE] + (d + [SPACE] + e)))
  {
    JoinCons(d, [e]);
    JoinCons(c, [d] + [e]);
    JoinCons(b, [c] + ([d] + [e]));
    JoinCons(a, [b] + ([c] + ([d] + [e])));
    assert [a] + ([b] + ([c] + ([d] + [e]))) == [a, b, c, d, e];
  }

  /** Latin text as bytes, one for each character. */
  function Ascii(s: string): bytes { seq(|s|, i requires 0 <= i < |s| => (s[i] as int % 256) as byte) }

  lemma AsciiJoins(a: string, b: string)
    ensures Ascii(a + b) == Ascii(a) + Ascii(b)
  {
  }

  /** The test vector of the DSSE protocol. */
  lemma TestVector(t: string, body: string)
    requires t == "http://example.com/HelloWorld" && body == "hello world"
    ensures Encode(Ascii(t), Ascii(body)) == Ascii("DSSEv1 29 " + t + " 11 " + body)
  {
    assert Decimal.Digits(29) == [2, 9] && Decimal.Digits(11) == [1, 1];
    assert Decimal.Encode(29) == Ascii("29") && Decimal.Encode(11) == Ascii("11");
    assert MAGIC + [SPACE] + Ascii("29") + [SPACE] == Ascii("DSSEv1 29 ");
    assert [SPACE] + Ascii("11") + [SPACE] == Ascii(" 11 ");
    AsciiJoins("DSSEv1 29 ", t);
    AsciiJoins("DSSEv1 29 " + t, " 11 ");
    AsciiJoins("DSSEv1 29 " + t + " 11 ", body);
  }

  // ---- a decoder ----

  /** How many digits the message starts with. */
  function DigitRun(m: bytes): (n: nat)
    ensures n <= |m|
    ensures forall i :: 0 <= i < n ==> Decimal.IsDigit(m[i])
    ensures n < |m| ==> !Decimal.IsDigit(m[n])
  {
    if m == [] || !Decimal.IsDigit(m[0]) then 0 else 1 + DigitRun(m[1..])
  }

  /** Reads LEN(x) SP x, where x has exactly LEN bytes, and yields x and what follows it. */
  function ReadField(m: bytes): Option<(bytes, bytes)>
  {
    var k := DigitRun(m);
    if k == |m| || m[k] != SPACE then None
    else
      var n := Decimal.Number(Decimal.FromBytes(m[..k]));
      if Decimal.Encode(n) != m[..k] || k + 1 + n > |m| then None
      else Some((m[k + 1..k + 1 + n], m[k + 1 + n..]))
  }

  function Decode(m: bytes): Option<(bytes, bytes)>
  {
    if |m| < 7 || m[..7] != MAGIC + [SPACE] then None
    else
      match ReadField(m[7..])
      case None => None
      case Some((t, rest)) =>
        if rest == [] || rest[0] != SPACE then None
        else
          match ReadField(rest[1..])
          case Some((body, tail)) => if tail == [] then Some((t, body)) else None
          case None => None
  }

  function Field(x: bytes, rest: bytes): bytes { Decimal.Encode(|x|) + [SPACE] + x + rest }

  lemma EncodeFields(t: bytes, body: bytes)
    ensures Encode(t, body) == MAGIC + [SPACE] + Field(t, [SPACE] + Field(body, []))
  {
  }

  lemma ReadFieldExact(m: bytes, x: bytes, rest: bytes)
    ensures ReadField(m) == Some((x, rest)) <==> m == Field(x, rest)
  {
    var d := Decimal.Encode(|x|);
    Decimal.EncodeDecodes(|x|);
    if m == Field(x, rest) {
      assert m[|d|] == SPACE && forall i :: 0 <= i < |d| ==> m[i] == d[i];
      var k := DigitRun(m);
      assert k == |d|;
      assert m[..k] == d;
      assert m[k + 1..k + 1 + |x|] == x && m[k + 1 + |x|..] == rest;
    }
    if ReadField(m) == Some((x, rest)) {
      var k := DigitRun(m);
      assert m == m[..k] + [SPACE] + m[k + 1..k + 1 + |x|] + m[k + 1 + |x|..];
    }
  }

  lemma DecodesOnlyEncodings(m: bytes, t: bytes, body: bytes)
    requires Decode(m) == Some((t, body))
    ensures m == Encode(t, body)
  {
    var field := m[7..];
    var rest := ReadField(field).value.1;
    var tail := rest[1..];
    ReadFieldExact(field, t, rest);
    ReadFieldExact(tail, body, []);
    assert rest == [SPACE] + tail;
    assert m == m[..7] + field;
    EncodeFields(t, body);
  }

  lemma DecodesEncodings(t: bytes, body: bytes)
    ensures Decode(Encode(t, body)) == Some((t, body))
  {
    var tail := [SPACE] + Field(body, []);
    var m := Encode(t, body);
    EncodeFields(t, body);
    assert m[..7] == MAGIC + [SPACE] && m[7..] == Field(t, tail);
    ReadFieldExact(m[7..], t, tail);
    assert tail[1..] == Field(body, []);
    ReadFieldExact(tail[1..], body, []);
  }

  /** The decoder recognises exactly the encodings, and inverts them. */
  lemma DecodeExact(m: bytes, t: bytes, body: bytes)
    ensures Decode(m) == Some((t, body)) <==> m == Encode(t, body)
  {
    DecodesEncodings(t, body);
    if Decode(m) == Some((t, body)) { DecodesOnlyEncodings(m, t, body); }
  }

  /** No two (type, body) pairs share an encoding, whatever spaces and digits they contain. */
  lemma EncodeInjective(t: bytes, body: bytes, t': bytes, body': bytes)
    requires Encode(t, body) == Encode(t', body')
    ensures t == t' && body == body'
  {
    DecodeExact(Encode(t, body), t, body);
    DecodeExact(Encode(t, body), t', body');
  }
}
