/** Numbers as little-endian bytes, by the loops of server/privacy-pass-issuer.js. */
module LittleEndian {
  import opened PrimeField

  type Byte = b: int | 0 <= b < 256
  type Bytes = seq<Byte>

  function FromLE(b: Bytes): nat {
    if b == [] then 0 else b[0] + 256 * FromLE(b[1..])
  }

  function ToLE(n: nat, len: nat): (b: Bytes)
    ensures |b| == len
  {
    if len == 0 then [] else [n % 256] + ToLE(n / 256, len - 1)
  }

  method BytesToNumberLE(buf: Bytes) returns (n: nat)
    ensures n == FromLE(buf)
  {
    n := 0;
    var i := |buf| - 1;
    while i >= 0
      invariant -1 <= i < |buf|
      invariant n == FromLE(buf[i + 1..])
    {
      assert buf[i..][1..] == buf[i + 1..];
      n := n * 256 + buf[i];
      i := i - 1;
    }
    assert buf[0..] == buf;
  }

  method NumberToBytesLE(number: nat, len: nat) returns (buf: array<Byte>)
    ensures fresh(buf) && buf[..] == ToLE(number, len)
  {
    buf := new Byte[len](_ => 0);
    var i, n := 0, number;
    while i < len
      invariant 0 <= i <= len
      invariant buf[..i] + ToLE(n, len - i) == ToLE(number, len)
    {
      ghost var done := buf[..i];
      buf[i] := n % 256;
      assert buf[..i + 1] == done + [n % 256];
      assert done + ToLE(n, len - i) == done + ([n % 256] + ToLE(n / 256, len - i - 1));
      n := n / 256;
      i := i + 1;
    }
    assert buf[..] == buf[..len] + ToLE(n, 0);
  }

  /** A number that fits survives being written and read back. */
  lemma {:induction false} LittleEndianRoundTrip(n: nat, len: nat)
    requires n < Pow(256, len)
    ensures FromLE(ToLE(n, len)) == n
  {
    if len != 0 {
      LittleEndianRoundTrip(n / 256, len - 1);
      assert ToLE(n, len)[1..] == ToLE(n / 256, len - 1);
    }
  }

  /** Reading is injective on buffers of one length. */
  lemma {:induction false} LittleEndianExact(b: Bytes)
    ensures FromLE(b) < Pow(256, |b|) && ToLE(FromLE(b), |b|) == b
  {
    if b != [] {
      LittleEndianExact(b[1..]);
      assert FromLE(b) / 256 == FromLE(b[1..]) && FromLE(b) % 256 == b[0];
    }
  }
}
