/**
 * Publishing an RSA public key as a JWK and reading it back (section 6.3.1 of
 * RFC 7518). Base64url is taken as an inverse pair; text that does not decode is Garbled.
 */
module JwkCodec {
  import opened Common

  type Byte = n: nat | n < 256

  const TWO_63: int := 0x8000_0000_0000_0000
  const TWO_64: int := 0x1_0000_0000_0000_0000

  // Two's complement 64-bit arithmetic.
  function Wrap64(x: int): (r: int)
    ensures -TWO_63 <= r < TWO_63
    ensures -TWO_63 <= x < TWO_63 ==> r == x
  {
    (x + TWO_63) % TWO_64 - TWO_63
  }

  predicate IsInt64(x: int)
  {
    -TWO_63 <= x < TWO_63
  }

  // The exponent is a machine integer.
  datatype PublicKey = PublicKey(n: nat, e: int)

  datatype Base64 = Encoded(bytes: seq<Byte>) | Garbled

  datatype Jwk = Jwk(kid: string, n: Base64, e: Base64)

  // Minimal big-endian bytes; zero has none.
  function BigEndian(n: nat): seq<Byte>
  {
    if n == 0 then [] else BigEndian(n / 256) + [n % 256]
  }

  function FromBytes(bs: seq<Byte>): nat
  {
    if bs == [] then 0 else 256 * FromBytes(bs[..|bs| - 1]) + bs[|bs| - 1]
  }

  function Abs(x: int): nat
  {
    if x < 0 then -x else x
  }

  // The exponent is published by its absolute value, as big.Int bytes are.
  function JwkFromPublic(pub: PublicKey, kid: string): Jwk
  {
    Jwk(kid, Encoded(BigEndian(pub.n)), Encoded(BigEndian(Abs(pub.e))))
  }

  function Decoded(k: Jwk): Option<PublicKey>
  {
    if k.n.Garbled? || k.e.Garbled? then None
    else Some(PublicKey(FromBytes(k.n.bytes), Wrap64(FromBytes(k.e.bytes))))
  }

  lemma WrapPeriodic(x: int, k: int)
    ensures Wrap64(x + TWO_64 * k) == Wrap64(x)
  {
  }

  // Folding in 64 bits is the exact value, wrapped once.
  lemma FoldWraps(v: int, b: Byte)
    ensures Wrap64(Wrap64(Wrap64(v) * 256) + b) == Wrap64(v * 256 + b)
  {
    var k := (v + TWO_63) / TWO_64;
    assert Wrap64(v) == v + TWO_64 * -k;
    WrapPeriodic(v * 256, -k * 256);
    assert Wrap64(v) * 256 == v * 256 + TWO_64 * (-k * 256);
    var j := (v * 256 + TWO_63) / TWO_64;
    assert Wrap64(v * 256) == v * 256 + TWO_64 * -j;
    WrapPeriodic(v * 256 + b, -j);
  }

  method JwkToRSA(k: Jwk) returns (r: Result<PublicKey>)
    ensures r == match Decoded(k) case None => Err(BadRequest) case Some(p) => Ok(p)
  {
    if k.n.Garbled? {
      return Err(BadRequest);
    }
    if k.e.Garbled? {
      return Err(BadRequest);
    }
    var eb := k.e.bytes;
    var e := 0;
    for i := 0 to |eb|
      invariant e == Wrap64(FromBytes(eb[..i]))
    {
      assert eb[..i + 1][..i] == eb[..i];
      FoldWraps(FromBytes(eb[..i]), eb[i]);
      e := Wrap64(Wrap64(e * 256) + eb[i]);
    }
    assert eb[..|eb|] == eb;
    r := Ok(PublicKey(FromBytes(k.n.bytes), e));
  }

  lemma {:induction false} BytesRoundTrip(n: nat)
    ensures FromBytes(BigEndian(n)) == n
    ensures BigEndian(n) != [] ==> BigEndian(n)[0] != 0
  {
    if n > 0 {
      BytesRoundTrip(n / 256);
      var bs := BigEndian(n / 256);
      assert (bs + [n % 256])[..|bs|] == bs;
    }
  }

  lemma AppendByte(m: nat, b: Byte)
    requires m > 0 || b > 0
    ensures BigEndian(256 * m + b) == BigEndian(m) + [b]
  {
    var v := 256 * m + b;
    assert v / 256 == m && v % 256 == b;
  }

  // The bytes are the only ones without a leading zero that fold back to the number.
  lemma {:induction false} BytesAreCanonical(bs: seq<Byte>)
    requires bs != [] ==> bs[0] != 0
    ensures BigEndian(FromBytes(bs)) == bs
    ensures bs != [] ==> FromBytes(bs) > 0
  {
    if bs != [] {
      var init := bs[..|bs| - 1];
      var b := bs[|bs| - 1];
      BytesAreCanonical(init);
      AppendByte(FromBytes(init), b);
      assert bs == init + [b];
    }
  }

  // Publishing then decoding is the identity for every machine exponent that is not
  // negative, and otherwise only for the smallest one.
  lemma PublishRoundTripIff(pub: PublicKey, kid: string)
    requires IsInt64(pub.e)
    ensures Decoded(JwkFromPublic(pub, kid)) == Some(pub) <==> pub.e >= 0 || pub.e == -TWO_63
  {
    BytesRoundTrip(pub.n);
    BytesRoundTrip(Abs(pub.e));
  }
}
