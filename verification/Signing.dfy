/** The signing input of envelopes: a NUL-terminated domain, then length-prefixed parts
    (appendDomain in internal/envelope/envelope.go). */
module Signing {
  import opened Positions

  type Byte = b: int | 0 <= b < 256
  type Bytes = seq<Byte>

  const LENGTHS := 0x1_0000_0000

  /** The k low-order bytes of n, most significant first. */
  function BigEndian(n: nat, k: nat): (b: Bytes)
    ensures |b| == k
  {
    if k == 0 then [] else BigEndian(n / 256, k - 1) + [n % 256]
  }

  /** uint32(len) truncates. */
  function Header(length: nat): (h: Bytes)
    ensures |h| == 4
  {
    BigEndian(length % LENGTHS, 4)
  }

  function EncodeParts(parts: seq<Bytes>): Bytes {
    if parts == [] then [] else Header(|parts[0]|) + parts[0] + EncodeParts(parts[1..])
  }

  function Encode(domain: Bytes, parts: seq<Bytes>): Bytes {
    domain + [0] + EncodeParts(parts)
  }

  method AppendDomain(domain: Bytes, parts: seq<Bytes>) returns (out: Bytes)
    ensures out == Encode(domain, parts)
  {
    out := domain + [0];
    var i := 0;
    while i < |parts|
      invariant 0 <= i <= |parts|
      invariant out + EncodeParts(parts[i..]) == Encode(domain, parts)
    {
      ghost var rest := EncodeParts(parts[i + 1..]);
      assert parts[i..][1..] == parts[i + 1..];
      assert EncodeParts(parts[i..]) == Header(|parts[i]|) + parts[i] + rest;
      assert out + (Header(|parts[i]|) + parts[i] + rest) == (out + Header(|parts[i]|) + parts[i]) + rest;
      var n := |parts[i]| % LENGTHS;
      HeaderBytes(|parts[i]|);
      out := out + [n / 0x100_0000, n / 0x1_0000 % 0x100, n / 0x100 % 0x100, n % 0x100];
      out := out + parts[i];
      i := i + 1;
    }
    assert parts[i..] == [];
  }

  /** The shifts of the source. */
  lemma {:induction false} HeaderBytes(length: nat)
    ensures var n := length % LENGTHS;
            Header(length) == [n / 0x100_0000, n / 0x1_0000 % 0x100, n / 0x100 % 0x100, n % 0x100]
  {
    var n := length % LENGTHS;
    assert n / 256 / 256 == n / 0x1_0000 && n / 256 / 256 / 256 == n / 0x100_0000;
    assert BigEndian(n / 0x100_0000, 1) == BigEndian(n / 0x100_0000 / 256, 0) + [n / 0x100_0000 % 256];
    assert BigEndian(n / 0x1_0000, 2) == BigEndian(n / 0x100_0000, 1) + [n / 0x1_0000 % 256];
    assert BigEndian(n / 256, 3) == BigEndian(n / 0x1_0000, 2) + [n / 256 % 256];
  }

  // ------------------------------------------------------------------ parser

  datatype Input = Input(domain: Bytes, parts: seq<Bytes>)

  function Value(b: Bytes): nat {
    if b == [] then 0 else Value(b[..|b| - 1]) * 256 + b[|b| - 1] as int
  }

  function ReadLength(b: Bytes): nat
    requires |b| >= 4
  {
    Value(b[..4])
  }

  function ParseParts(b: Bytes): Option<seq<Bytes>> {
    if b == [] then Some([])
    else if |b| < 4 || |b| < 4 + ReadLength(b) then None
    else
      var n := ReadLength(b);
      var rest := ParseParts(b[4 + n..]);
      if rest.None? then None else Some([b[4..4 + n]] + rest.value)
  }

  function Parse(b: Bytes): Option<Input> {
    if b == [] then None
    else if b[0] == 0 then
      var parts := ParseParts(b[1..]);
      if parts.None? then None else Some(Input([], parts.value))
    else
      var rest := Parse(b[1..]);
      if rest.None? then None else Some(Input([b[0]] + rest.value.domain, rest.value.parts))
  }

  predicate NulFree(domain: Bytes) {
    0 !in domain
  }

  predicate Short(parts: seq<Bytes>) {
    forall i :: 0 <= i < |parts| ==> |parts[i]| < LENGTHS
  }

  function Power(k: nat): nat {
    if k == 0 then 1 else 256 * Power(k - 1)
  }

  lemma {:induction false} BigEndianRoundTrip(n: nat, k: nat)
    requires n < Power(k)
    ensures Value(BigEndian(n, k)) == n
  {
    if k > 0 {
      BigEndianRoundTrip(n / 256, k - 1);
      assert BigEndian(n, k)[..k - 1] == BigEndian(n / 256, k - 1);
    }
  }

  lemma {:induction false} ValueBound(b: Bytes)
    ensures Value(b) < Power(|b|)
  {
    if b != [] { ValueBound(b[..|b| - 1]); }
  }

  lemma FourBytes()
    ensures Power(4) == LENGTHS
  {
    assert Power(1) == 0x100 && Power(2) == 0x1_0000 && Power(3) == 0x100_0000;
  }

  lemma {:induction false} HeaderRoundTrip(length: nat, rest: Bytes)
    ensures ReadLength(Header(length) + rest) == length % LENGTHS
  {
    FourBytes();
    BigEndianRoundTrip(length % LENGTHS, 4);
    assert (Header(length) + rest)[..4] == Header(length);
  }

  lemma {:induction false} ParseFirst(header: Bytes, p: Bytes, rest: Bytes)
    requires |header| == 4 && ReadLength(header + (p + rest)) == |p| && ParseParts(rest).Some?
    ensures ParseParts(header + p + rest) == Some([p] + ParseParts(rest).value)
  {
    var b := header + p + rest;
    assert b == header + (p + rest);
    assert b[4..4 + |p|] == p;
    assert b[4 + |p|..] == rest;
  }

  lemma {:induction false} PartsRoundTrip(parts: seq<Bytes>)
    requires Short(parts)
    ensures ParseParts(EncodeParts(parts)) == Some(parts)
  {
    if parts != [] {
      var p, rest := parts[0], EncodeParts(parts[1..]);
      PartsRoundTrip(parts[1..]);
      assert ReadLength(Header(|p|) + (p + rest)) == |p| by { HeaderRoundTrip(|p|, p + rest); }
      ParseFirst(Header(|p|), p, rest);
      assert [p] + parts[1..] == parts;
    }
  }

  lemma {:induction false} RoundTrip(domain: Bytes, parts: seq<Bytes>)
    requires NulFree(domain) && Short(parts)
    ensures Parse(Encode(domain, parts)) == Some(Input(domain, parts))
  {
    var b := Encode(domain, parts);
    if domain == [] {
      assert b == [0] + EncodeParts(parts);
      assert b[1..] == EncodeParts(parts);
      PartsRoundTrip(parts);
    } else {
      RoundTrip(domain[1..], parts);
      assert b[0] == domain[0] != 0;
      assert b[1..] == Encode(domain[1..], parts);
      assert [domain[0]] + domain[1..] == domain;
    }
  }

  lemma {:induction false} ParsedPartsShort(b: Bytes)
    ensures ParseParts(b).Some? ==> Short(ParseParts(b).value)
  {
    if |b| >= 4 && |b| >= 4 + ReadLength(b) {
      FourBytes();
      ValueBound(b[..4]);
      ParsedPartsShort(b[4 + ReadLength(b)..]);
    }
  }

  lemma {:induction false} ParsedIsProper(b: Bytes)
    ensures Parse(b).Some? ==> NulFree(Parse(b).value.domain) && Short(Parse(b).value.parts)
  {
    if b != [] {
      if b[0] == 0 { ParsedPartsShort(b[1..]); } else { ParsedIsProper(b[1..]); }
    }
  }

  /** The parser recovers exactly the inputs with a NUL-free domain and parts under 2^32 bytes, */
  lemma {:induction false} RecoveredIff(domain: Bytes, parts: seq<Bytes>)
    ensures Parse(Encode(domain, parts)) == Some(Input(domain, parts)) <==> NulFree(domain) && Short(parts)
  {
    ParsedIsProper(Encode(domain, parts));
    if NulFree(domain) && Short(parts) { RoundTrip(domain, parts); }
  }

  /** so distinct such inputs never share bytes, whatever the number of parts. */
  lemma {:induction false} Injective(domain: Bytes, parts: seq<Bytes>, domain': Bytes, parts': seq<Bytes>)
    requires NulFree(domain) && Short(parts) && NulFree(domain') && Short(parts')
    requires Encode(domain, parts) == Encode(domain', parts')
    ensures domain == domain' && parts == parts'
  {
    RoundTrip(domain, parts);
    RoundTrip(domain', parts');
  }

  /** A NUL in the domain can be read as its end: every part that ends in NUL gives a collision. */
  lemma {:induction false} NulDomainCollides(p: Bytes)
    requires p != [] && p[|p| - 1] == 0
    ensures var domain := [0] + Header(|p|) + p[..|p| - 1];
            domain != [] && Encode(domain, []) == Encode([], [p])
  {
    var domain := [0] + Header(|p|) + p[..|p| - 1];
    assert p == p[..|p| - 1] + [0];
    assert EncodeParts([p]) == Header(|p|) + p + EncodeParts([p][1..]);
    assert Encode([], [p]) == [0] + (Header(|p|) + p);
  }

  function Blank(n: nat): Bytes {
    seq(n, i => 0)
  }

  function Empties(n: nat): seq<Bytes> {
    seq(n, i => [])
  }

  lemma {:induction false} EncodeEmpties(n: nat)
    ensures EncodeParts(Empties(n)) == Blank(4 * n)
  {
    if n == 0 {
      assert Empties(n) == [];
    } else {
      EncodeEmpties(n - 1);
      assert Empties(n)[0] == [] && Empties(n)[1..] == Empties(n - 1);
      HeaderBytes(0);
      assert Header(0) == Blank(4);
    }
  }

  /** A part of 2^32 zero bytes, or a multiple, reads as empty parts. */
  lemma {:induction false} OverlongPartCollides(domain: Bytes, length: nat)
    requires length > 0 && length % LENGTHS == 0
    ensures [Blank(length)] != Empties(1 + length / 4)
    ensures Encode(domain, [Blank(length)]) == Encode(domain, Empties(1 + length / 4))
  {
    var p := Blank(length);
    EncodeEmpties(1 + length / 4);
    HeaderBytes(length);
    assert Header(length) == Blank(4);
    assert EncodeParts([p]) == Header(length) + p + EncodeParts([p][1..]);
    assert EncodeParts([p]) == Blank(4 + length);
    assert |[p]| != |Empties(1 + length / 4)|;
  }
}
