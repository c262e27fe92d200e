/** Byte strings and the big-endian integers of the file and pipe formats. */
module ByteStrings {

  type Byte = x: int | 0 <= x < 256
  type Bytes = seq<Byte>

  const UINT16_LIMIT := 0x1_0000
  const UINT32_LIMIT := 0x1_0000_0000

  function BE16(n: nat): (b: Bytes)
    requires n < UINT16_LIMIT
    ensures |b| == 2
  {
    [n / 0x100, n % 0x100]
  }

  function FromBE16(b: Bytes): (n: nat)
    requires |b| == 2
    ensures n < UINT16_LIMIT
  {
    var high: int := b[0];
    high * 0x100 + b[1]
  }

  function BE32(n: nat): (b: Bytes)
    requires n < UINT32_LIMIT
    ensures |b| == 4
  {
    BE16(n / UINT16_LIMIT) + BE16(n % UINT16_LIMIT)
  }

  function FromBE32(b: Bytes): (n: nat)
    requires |b| == 4
    ensures n < UINT32_LIMIT
  {
    FromBE16(b[..2]) * UINT16_LIMIT + FromBE16(b[2..])
  }

  lemma BE16RoundTrip(n: nat)
    requires n < UINT16_LIMIT
    ensures FromBE16(BE16(n)) == n
  {
  }

  lemma FromBE16RoundTrip(b: Bytes)
    requires |b| == 2
    ensures BE16(FromBE16(b)) == b
  {
  }

  /** Packing and unpacking are inverse, so distinct integers pack differently
      and every four bytes are the packing of one integer. */
  lemma BE32RoundTrip(n: nat)
    requires n < UINT32_LIMIT
    ensures FromBE32(BE32(n)) == n
  {
    var b := BE32(n);
    assert b[..2] == BE16(n / UINT16_LIMIT) && b[2..] == BE16(n % UINT16_LIMIT);
    BE16RoundTrip(n / UINT16_LIMIT);
    BE16RoundTrip(n % UINT16_LIMIT);
  }

  lemma FromBE32RoundTrip(b: Bytes)
    requires |b| == 4
    ensures BE32(FromBE32(b)) == b
  {
    FromBE16RoundTrip(b[..2]);
    FromBE16RoundTrip(b[2..]);
    assert FromBE32(b) / UINT16_LIMIT == FromBE16(b[..2]) && FromBE32(b) % UINT16_LIMIT == FromBE16(b[2..]);
    assert b == b[..2] + b[2..];
  }
}
