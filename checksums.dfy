/** The two checksums of the save format. The sector checksum adds little-endian 32-bit
    words and folds the sum to 16 bits; the record checksum of a box record adds 16-bit
    half-words and keeps the low 16 bits. They are deliberately different algorithms. */
module Checksums {
  import opened Bytes

  /** Byte `i` of `data`, or 0 past its end: `int.from_bytes` of a little-endian slice cut
      short by the end of the buffer reads the missing high bytes as zero. */
  function ByteOrZero(data: seq<byte>, i: nat): byte
  {
    if i < |data| then data[i] else 0
  }

  /** `int.from_bytes(data[i*4:(i+1)*4], 'little')`. */
  function Word32(data: seq<byte>, i: nat): nat
  {
    ByteOrZero(data, 4 * i) as int + 0x100 * ByteOrZero(data, 4 * i + 1) as int
    + 0x1_0000 * ByteOrZero(data, 4 * i + 2) as int + 0x100_0000 * ByteOrZero(data, 4 * i + 3) as int
  }

  /** `int.from_bytes(data[i*2:(i+1)*2], 'little')`. */
  function Word16(data: seq<byte>, i: nat): nat
  {
    ByteOrZero(data, 2 * i) as int + 0x100 * ByteOrZero(data, 2 * i + 1) as int
  }

  /** Sum of the first n 32-bit words. */
  function Sum32(data: seq<byte>, n: nat): nat
  {
    if n == 0 then 0 else Sum32(data, n - 1) + Word32(data, n - 1)
  }

  /** Sum of the first n 16-bit half-words. */
  function Sum16(data: seq<byte>, n: nat): nat
  {
    if n == 0 then 0 else Sum16(data, n - 1) + Word16(data, n - 1)
  }

  /** Adds the carry above bit 16 back into the low half-word: `((sum >> 16) + sum) & 0xFFFF`. */
  function FoldCarry(sum: nat): u16
  {
    (sum / 0x1_0000 + sum) % 0x1_0000
  }

  /** The sector checksum over the first `size` bytes. */
  function SectorChecksum(data: seq<byte>, size: nat): u16
  {
    FoldCarry(Sum32(data, size / 4))
  }

  /** The record checksum over the first `size` bytes: `sum & 0xFFFF`. */
  function BoxChecksum(data: seq<byte>, size: nat): u16
  {
    Sum16(data, size / 2) % 0x1_0000
  }

  /** `calculateChecksum`: the accumulator loop over `size // 4` words. */
  method CalculateChecksum(data: seq<byte>, size: nat) returns (checksum: u16)
    ensures checksum == SectorChecksum(data, size)
  {
    var sum := 0;
    var i := 0;
    while i < size / 4
      invariant 0 <= i <= size / 4
      invariant sum == Sum32(data, i)
    {
      var chunk := Word32(data, i);
      sum := sum + chunk;
      i := i + 1;
    }
    checksum := (sum / 0x1_0000 + sum) % 0x1_0000;
    assert checksum == FoldCarry(sum);
  }

  /** `calculateChecksumBox`: the accumulator loop over `size // 2` half-words. */
  method CalculateChecksumBox(data: seq<byte>, size: nat) returns (checksum: u16)
    ensures checksum == BoxChecksum(data, size)
  {
    var sum := 0;
    var i := 0;
    while i < size / 2
      invariant 0 <= i <= size / 2
      invariant sum == Sum16(data, i)
    {
      var chunk := Word16(data, i);
      sum := sum + chunk;
      i := i + 1;
    }
    checksum := sum % 0x1_0000;
  }

  lemma {:induction false} Sum32Prefix(data: seq<byte>, extra: seq<byte>, n: nat)
    requires 4 * n <= |data|
    ensures Sum32(data + extra, n) == Sum32(data, n)
  {
    if n > 0 {
      Sum32Prefix(data, extra, n - 1);
      assert Word32(data + extra, n - 1) == Word32(data, n - 1);
    }
  }

  lemma {:induction false} Sum16Prefix(data: seq<byte>, extra: seq<byte>, n: nat)
    requires 2 * n <= |data|
    ensures Sum16(data + extra, n) == Sum16(data, n)
  {
    if n > 0 {
      Sum16Prefix(data, extra, n - 1);
      assert Word16(data + extra, n - 1) == Word16(data, n - 1);
    }
  }

  /** Bytes after the last whole 32-bit word of the first `size` bytes play no part in the
      sector checksum, whatever they are and however many there are. */
  lemma SectorChecksumIgnoresTail(data: seq<byte>, extra: seq<byte>, size: nat)
    requires 4 * (size / 4) <= |data|
    ensures SectorChecksum(data + extra, size) == SectorChecksum(data, size)
    ensures SectorChecksum(data, size) == SectorChecksum(data, 4 * (size / 4))
  {
    Sum32Prefix(data, extra, size / 4);
  }

  /** Bytes after the last whole 16-bit half-word of the first `size` bytes play no part in
      the record checksum. */
  lemma BoxChecksumIgnoresTail(data: seq<byte>, extra: seq<byte>, size: nat)
    requires 2 * (size / 2) <= |data|
    ensures BoxChecksum(data + extra, size) == BoxChecksum(data, size)
    ensures BoxChecksum(data, size) == BoxChecksum(data, 2 * (size / 2))
  {
    Sum16Prefix(data, extra, size / 2);
  }

  /** The half-word sum of a concatenation of two whole-half-word buffers is the sum of their
      half-word sums. */
  lemma {:induction false} Sum16Concat(a: seq<byte>, b: seq<byte>, n: nat)
    requires |a| % 2 == 0 && n <= |b| / 2
    ensures Sum16(a + b, |a| / 2 + n) == Sum16(a, |a| / 2) + Sum16(b, n)
  {
    if n == 0 {
      Sum16Prefix(a, b, |a| / 2);
    } else {
      Sum16Concat(a, b, n - 1);
      assert Word16(a + b, |a| / 2 + n - 1) == Word16(b, n - 1);
    }
  }

  /** The two algorithms disagree on real data: for the eight bytes FF FF 00 00 01 00 00 00
      the sector checksum is 1 and the record checksum 0. */
  lemma ChecksumsDiffer(d: seq<byte>)
    requires d == [0xFF, 0xFF, 0, 0, 1, 0, 0, 0]
    ensures SectorChecksum(d, 8) == 1
    ensures BoxChecksum(d, 8) == 0
  {
    assert |d| == 8 && d[0] == 0xFF && d[1] == 0xFF && d[2] == 0 && d[3] == 0;
    assert d[4] == 1 && d[5] == 0 && d[6] == 0 && d[7] == 0;
    assert Word32(d, 0) == 0xFFFF && Word32(d, 1) == 1;
    assert Sum32(d, 1) == 0xFFFF;
    assert Sum32(d, 2) == 0x1_0000;
    assert Word16(d, 0) == 0xFFFF && Word16(d, 1) == 0 && Word16(d, 2) == 1 && Word16(d, 3) == 0;
    assert Sum16(d, 1) == 0xFFFF;
    assert Sum16(d, 2) == 0xFFFF;
    assert Sum16(d, 3) == 0x1_0000;
    assert Sum16(d, 4) == 0x1_0000;
  }
}
