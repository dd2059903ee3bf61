/** Byte-level vocabulary shared by every codec of the save converter:
    fixed-width unsigned integers, little-endian packing as Python's `struct`
    module does it with '<H' and '<I', slice assignment on a bytearray, and the
    bitwise operators of Python on non-negative integers. */
module Bytes {

  type byte = x: int | 0 <= x < 0x100
  type u16 = x: int | 0 <= x < 0x1_0000
  type u32 = x: int | 0 <= x < 0x1_0000_0000

  function Pow2(n: nat): (r: nat)
    ensures r >= 1
  {
    if n == 0 then 1 else 2 * Pow2(n - 1)
  }

  // ---------------------------------------------------------------------------
  // Bitwise exclusive or, as Python's `^` on non-negative integers
  // ---------------------------------------------------------------------------

  /** The lowest bit of `a ^ b`. */
  function LowBit(a: nat, b: nat): nat
  {
    if a % 2 == b % 2 then 0 else 1
  }

  /** `a ^ b`, built from the least significant bit upwards. */
  function Xor(a: nat, b: nat): nat
    decreases a + b
  {
    if a == 0 then b
    else if b == 0 then a
    else 2 * Xor(a / 2, b / 2) + LowBit(a, b)
  }

  /** The defining step of `Xor` holds for every pair, zeros included, and splits the
      result into its low bit and the rest. */
  lemma XorStep(a: nat, b: nat)
    ensures Xor(a, b) == 2 * Xor(a / 2, b / 2) + LowBit(a, b)
    ensures Xor(a, b) / 2 == Xor(a / 2, b / 2) && Xor(a, b) % 2 == LowBit(a, b)
  {
  }

  lemma {:induction false} XorComm(a: nat, b: nat)
    ensures Xor(a, b) == Xor(b, a)
    decreases a + b
  {
    if a != 0 && b != 0 {
      XorComm(a / 2, b / 2);
    }
  }

  lemma {:induction false} XorSelf(a: nat)
    ensures Xor(a, a) == 0
  {
    if a != 0 {
      XorSelf(a / 2);
    }
  }

  lemma {:induction false} XorAssoc(a: nat, b: nat, c: nat)
    ensures Xor(Xor(a, b), c) == Xor(a, Xor(b, c))
    decreases a + b + c
  {
    if a != 0 && b != 0 && c != 0 {
      var ab, bc := Xor(a, b), Xor(b, c);
      XorStep(a, b);
      XorStep(b, c);
      XorStep(ab, c);
      XorStep(a, bc);
      XorAssoc(a / 2, b / 2, c / 2);
      assert LowBit(ab, c) == LowBit(a, bc);
    }
  }

  /** XOR-ing twice with the same key gives the original value back. */
  lemma XorInvolution(a: nat, k: nat)
    ensures Xor(Xor(a, k), k) == a
  {
    XorAssoc(a, k, k);
    XorSelf(k);
  }

  /** `k ^ (k ^ w) == w` on 32-bit words. */
  lemma Xor32Twice(k: u32, w: u32)
    ensures Xor32(k, Xor32(k, w)) == w
  {
    XorComm(k, w);
    XorComm(k, Xor(w, k));
    XorInvolution(w, k);
  }

  /** XOR does not widen: two n-bit values give an n-bit value. */
  lemma {:induction false} XorBound(a: nat, b: nat, n: nat)
    requires a < Pow2(n) && b < Pow2(n)
    ensures Xor(a, b) < Pow2(n)
  {
    if n > 0 && a != 0 && b != 0 {
      XorBound(a / 2, b / 2, n - 1);
    }
  }

  lemma MulAtLeast(d: int, k: int)
    requires d > 0 && k >= 1
    ensures d * k >= d
  {
  }

  /** Piece i of n pieces of d elements ends inside the n*d elements. */
  predicate ChunkFits(i: nat, n: nat, d: nat)
  {
    i < n && i * d + d <= n * d
  }

  lemma ChunkBounds(i: nat, n: nat, d: nat)
    requires i < n
    ensures (i + 1) * d == i * d + d && i * d + d <= n * d && ChunkFits(i, n, d)
  {
    if d > 0 {
      MulAtLeast(d, n - i);
      assert n * d - i * d == d * (n - i);
    }
  }

  /** Euclidean division is unique: a quotient and a remainder in range are the ones `/` and `%` give. */
  lemma DivModUnique(x: int, d: int, q: int, r: int)
    requires d > 0 && x == d * q + r && 0 <= r < d
    ensures x / d == q && x % d == r
  {
    var k := q - x / d;
    assert d * k == x % d - r;
    if k > 0 {
      MulAtLeast(d, k);
    } else if k < 0 {
      MulAtLeast(d, -k);
    }
  }

  lemma ModDouble(x: nat, p: nat)
    requires p >= 1
    ensures x % (2 * p) == 2 * ((x / 2) % p) + x % 2
  {
    var q, s := (x / 2) / p, (x / 2) % p;
    assert x / 2 == p * q + s;
    assert x == (2 * p) * q + (2 * s + x % 2);
    DivModUnique(x, 2 * p, q, 2 * s + x % 2);
  }

  lemma DivDouble(x: nat, p: nat)
    requires p >= 1
    ensures x / (2 * p) == (x / 2) / p
  {
    var q, s := (x / 2) / p, (x / 2) % p;
    assert x / 2 == p * q + s;
    assert x == (2 * p) * q + (2 * s + x % 2);
    DivModUnique(x, 2 * p, q, 2 * s + x % 2);
  }

  /** XOR with an n-bit value keeps the bits from bit n up: `(a ^ b) >> n == b >> n`. */
  lemma {:induction false} XorHigh(a: nat, b: nat, n: nat)
    requires a < Pow2(n)
    ensures Xor(a, b) / Pow2(n) == b / Pow2(n)
  {
    if n > 0 && a != 0 {
      XorHigh(a / 2, b / 2, n - 1);
      XorStep(a, b);
      DivDouble(Xor(a, b), Pow2(n - 1));
      DivDouble(b, Pow2(n - 1));
      DivDouble(2 * Xor(a / 2, b / 2) + LowBit(a, b), Pow2(n - 1));
    }
  }

  /** The low n bits of `a ^ b` are the XOR of the low n bits: `(a ^ b) & m == (a & m) ^ (b & m)`
      for the mask m of n ones. */
  lemma {:induction false} XorLow(a: nat, b: nat, n: nat)
    ensures Xor(a, b) % Pow2(n) == Xor(a % Pow2(n), b % Pow2(n))
  {
    if n > 0 {
      var p := Pow2(n - 1);
      var a', b' := a % (2 * p), b % (2 * p);
      XorLow(a / 2, b / 2, n - 1);
      XorStep(a, b);
      XorStep(a', b');
      ModDouble(a, p);
      ModDouble(b, p);
      ModDouble(Xor(a, b), p);
      DivModUnique(a', 2, (a / 2) % p, a % 2);
      DivModUnique(b', 2, (b / 2) % p, b % 2);
      assert LowBit(a', b') == LowBit(a, b);
    }
  }

  lemma Pow2Of16And32()
    ensures Pow2(16) == 0x1_0000 && Pow2(32) == 0x1_0000_0000
  {
    assert Pow2(4) == 16;
    assert Pow2(8) == 256;
    assert Pow2(12) == 4096;
    assert Pow2(16) == 0x1_0000;
    assert Pow2(20) == 0x10_0000;
    assert Pow2(24) == 0x100_0000;
    assert Pow2(28) == 0x1000_0000;
  }

  /** `a ^ b` on two 32-bit words. */
  function Xor32(a: u32, b: u32): (r: u32)
  {
    Pow2Of16And32();
    XorBound(a, b, 32);
    Xor(a, b)
  }

  /** The low 16 bits of a 32-bit XOR: `(a ^ b) & 0xFFFF == (a & 0xFFFF) ^ (b & 0xFFFF)`. */
  lemma Xor32Low16(a: u32, b: u32)
    ensures Xor32(a, b) % 0x1_0000 == Xor32(a % 0x1_0000, b % 0x1_0000)
    ensures Xor32(a % 0x1_0000, b % 0x1_0000) < 0x1_0000
  {
    Pow2Of16And32();
    XorLow(a, b, 16);
    XorBound(a % 0x1_0000, b % 0x1_0000, 16);
  }

  // ---------------------------------------------------------------------------
  // Little-endian packing
  // ---------------------------------------------------------------------------

  /** `struct.unpack('<H', s[i:i+2])`. */
  function U16At(s: seq<byte>, i: nat): u16
    requires i + 2 <= |s|
  {
    s[i] as int + 0x100 * s[i + 1] as int
  }

  /** `struct.unpack('<I', s[i:i+4])`. */
  function U32At(s: seq<byte>, i: nat): u32
    requires i + 4 <= |s|
  {
    s[i] as int + 0x100 * s[i + 1] as int + 0x1_0000 * s[i + 2] as int + 0x100_0000 * s[i + 3] as int
  }

  /** A word is read from its own four bytes, wherever they sit. */
  lemma U32AtSlice(s: seq<byte>, i: nat)
    requires i + 4 <= |s|
    ensures U32At(s, i) == U32At(s[i..i + 4], 0)
  {
  }

  lemma U32AtAfterPrefix(front: seq<byte>, rest: seq<byte>)
    requires |rest| >= 4
    ensures U32At(front + rest, |front|) == U32At(rest, 0)
  {
  }

  /** `struct.pack('<H', x)`. */
  function Pack16(x: u16): (r: seq<byte>)
    ensures |r| == 2
  {
    [x % 0x100, x / 0x100]
  }

  /** `struct.pack('<I', x)`. */
  function Pack32(x: u32): (r: seq<byte>)
    ensures |r| == 4
  {
    [x % 0x100, (x / 0x100) % 0x100, (x / 0x1_0000) % 0x100, x / 0x100_0000]
  }

  lemma Unpack16Pack16(x: u16)
    ensures U16At(Pack16(x), 0) == x
  {
  }

  lemma Unpack32Pack32(x: u32)
    ensures U32At(Pack32(x), 0) == x
  {
    var lo, hi := x % 0x1_0000, x / 0x1_0000;
    DivModUnique(x, 0x1_0000, hi, lo);
    DivModUnique(x, 0x100_0000, hi / 0x100, lo + 0x1_0000 * (hi % 0x100));
    DivModUnique(x, 0x100, hi * 0x100 + lo / 0x100, lo % 0x100);
    assert (x / 0x100) % 0x100 == (lo / 0x100) % 0x100 == lo / 0x100;
  }

  lemma Pack16Unpack16(s: seq<byte>, i: nat)
    requires i + 2 <= |s|
    ensures Pack16(U16At(s, i)) == s[i..i + 2]
  {
  }

  lemma Pack32Unpack32(s: seq<byte>, i: nat)
    requires i + 4 <= |s|
    ensures Pack32(U32At(s, i)) == s[i..i + 4]
  {
    var x := U32At(s, i);
    var lo := s[i] as int + 0x100 * s[i + 1] as int;
    var hi := s[i + 2] as int + 0x100 * s[i + 3] as int;
    DivModUnique(x, 0x1_0000, hi, lo);
    DivModUnique(x, 0x100, s[i + 1] as int + 0x100 * hi, s[i]);
    DivModUnique(x, 0x100_0000, s[i + 3], lo + 0x1_0000 * s[i + 2] as int);
    DivModUnique(s[i + 1] as int + 0x100 * hi, 0x100, hi, s[i + 1]);
    DivModUnique(hi, 0x100, s[i + 3], s[i + 2]);
  }

  /** A run of zero bytes, as `bytearray(n)` creates it. */
  function Zeros(n: nat): (r: seq<byte>)
    ensures |r| == n && forall k :: 0 <= k < n ==> r[k] == 0
  {
    seq(n, _ => 0)
  }

  /** Slice assignment `s[at:at+len(t)] = t` on a bytearray, for a slice inside `s`:
      the bytes of `t` land at `at` and nothing else moves. */
  function Splice<T>(s: seq<T>, at: nat, t: seq<T>): (r: seq<T>)
    requires at + |t| <= |s|
    ensures |r| == |s|
    ensures forall k :: 0 <= k < |s| ==> r[k] == if at <= k < at + |t| then t[k - at] else s[k]
  {
    s[..at] + t + s[at + |t|..]
  }

  /** Piece i of a buffer cut into pieces of d elements. */
  function Piece<T>(s: seq<T>, i: nat, d: nat): (r: seq<T>)
    requires i * d + d <= |s|
    ensures |r| == d
  {
    s[i * d..i * d + d]
  }

  /** Element k of a buffer of n pieces of d elements lies in piece k / d at offset k % d. */
  lemma PieceIndex(k: nat, n: nat, d: nat)
    requires k < n * d
    ensures d > 0 && k / d < n && k == (k / d) * d + k % d && k % d < d
  {
    MulPositive(n, d);
    MulCancelLess(k / d, n, d);
  }

  lemma MulPositive(n: nat, d: nat)
    ensures n * d > 0 ==> d > 0
  {
    if d == 0 {
      assert n * d == 0;
    }
  }

  lemma MulCancelLess(q: int, n: int, d: int)
    requires d > 0
    ensures q * d < n * d ==> q < n
  {
    if q > n {
      MulAtLeast(d, q - n);
      assert q * d - n * d == d * (q - n);
    }
  }

  /** Two buffers of n pieces are equal when every piece is. */
  lemma PiecesDetermine<T>(a: seq<T>, b: seq<T>, n: nat, d: nat)
    requires |a| == n * d && |b| == n * d
    requires forall i :: 0 <= i < n ==> ChunkFits(i, n, d) && Piece(a, i, d) == Piece(b, i, d)
    ensures a == b
  {
    forall k | 0 <= k < |a|
      ensures a[k] == b[k]
    {
      PieceIndex(k, n, d);
      var i, o := k / d, k % d;
      assert ChunkFits(i, n, d);
      assert Piece(a, i, d)[o] == a[k];
      assert Piece(b, i, d)[o] == b[k];
    }
  }

  /** Assigning piece `j` of a buffer of n pieces leaves every other piece as it was. */
  lemma PieceOfSpliceOther<T>(s: seq<T>, n: nat, d: nat, j: nat, t: seq<T>, i: nat)
    requires |s| == n * d && |t| == d && j < n && i < n && i != j
    ensures ChunkFits(j, n, d) && ChunkFits(i, n, d)
    ensures Piece(Splice(s, j * d, t), i, d) == Piece(s, i, d)
  {
    ChunkBounds(i, n, d);
    ChunkBounds(j, n, d);
    if j < i {
      ChunkBounds(j, i, d);
    } else {
      ChunkBounds(i, j, d);
    }
  }

  /** Assigning right after a prefix replaces the start of what follows it. */
  lemma SpliceAfterPrefix<T>(front: seq<T>, rest: seq<T>, t: seq<T>)
    requires |t| <= |rest|
    ensures Splice(front + rest, |front|, t) == (front + t) + rest[|t|..]
  {
  }

  /** The n elements after a prefix are the first n of what follows it. */
  lemma SliceAfterPrefix<T>(front: seq<T>, rest: seq<T>, n: nat)
    requires n <= |rest|
    ensures (front + rest)[|front|..|front| + n] == rest[..n]
  {
  }

  /** The empty sequence is a left unit of concatenation. */
  lemma EmptyConcat<T>(x: seq<T>)
    ensures [] + x == x
  {
  }

  /** The empty sequence is a right unit of concatenation. */
  lemma ConcatEmpty<T>(x: seq<T>)
    ensures x + [] == x
  {
  }

  /** A sequence is its prefix and its suffix at any point, with nothing between. */
  lemma SplitWithGap<T>(s: seq<T>, i: nat)
    requires i <= |s|
    ensures s[..i] + [] + s[i..] == s
  {
  }

  /** A sequence of four elements is the display of its elements. */
  lemma FourElements<T>(s: seq<T>)
    requires |s| == 4
    ensures s == [s[0], s[1], s[2], s[3]]
  {
  }

  /** Regrouping a four-part concatenation. */
  lemma Regroup<T>(a: seq<T>, b: seq<T>, c: seq<T>, d: seq<T>)
    ensures (a + b) + c + d == a + (b + c) + d
  {
  }

  /** Assigning the same slice twice keeps only the second assignment. */
  lemma SpliceTwice<T>(s: seq<T>, at: nat, t1: seq<T>, t2: seq<T>)
    requires at + |t1| <= |s| && |t1| == |t2|
    ensures Splice(Splice(s, at, t1), at, t2) == Splice(s, at, t2)
  {
  }

  /** Two assignments to adjacent slices are one assignment of their concatenation. */
  lemma SpliceAdjacent<T>(s: seq<T>, at: nat, t1: seq<T>, t2: seq<T>)
    requires at + |t1| + |t2| <= |s|
    ensures Splice(Splice(s, at, t1), at + |t1|, t2) == Splice(s, at, t1 + t2)
  {
    var a, b := Splice(Splice(s, at, t1), at + |t1|, t2), Splice(s, at, t1 + t2);
    forall k | 0 <= k < |s|
      ensures a[k] == b[k]
    {
    }
  }

  /** The slice that was assigned reads back as what was written. */
  lemma SpliceRead<T>(s: seq<T>, at: nat, t: seq<T>)
    requires at + |t| <= |s|
    ensures Splice(s, at, t)[at..at + |t|] == t
  {
  }

  // ---------------------------------------------------------------------------
  // Single bits of a byte
  // ---------------------------------------------------------------------------

  /** `b & (1 << j) != 0`. */
  predicate BitSet(b: nat, j: nat)
  {
    if j == 0 then b % 2 == 1 else BitSet(b / 2, j - 1)
  }

  /** `b | (1 << j)`. */
  function SetBit(b: nat, j: nat): nat
  {
    if j == 0 then (if b % 2 == 1 then b else b + 1)
    else 2 * SetBit(b / 2, j - 1) + b % 2
  }

  /** After `b |= 1 << j` bit j is set and every other bit is as it was. */
  lemma {:induction false} SetBitEffect(b: nat, j: nat, k: nat)
    ensures BitSet(SetBit(b, j), k) == (k == j || BitSet(b, k))
  {
    if j == 0 {
      if k > 0 {
        assert SetBit(b, j) / 2 == b / 2;
      }
    } else if k > 0 {
      assert SetBit(b, j) / 2 == SetBit(b / 2, j - 1);
      SetBitEffect(b / 2, j - 1, k - 1);
    }
  }

  /** Setting a bit inside an n-bit value keeps it an n-bit value. */
  lemma {:induction false} SetBitBound(b: nat, j: nat, n: nat)
    requires b < Pow2(n) && j < n
    ensures SetBit(b, j) < Pow2(n)
  {
    var h := Pow2(n - 1);
    assert Pow2(n) == 2 * h;
    if j > 0 {
      assert b / 2 < h;
      SetBitBound(b / 2, j - 1, n - 1);
      assert SetBit(b, j) == 2 * SetBit(b / 2, j - 1) + b % 2;
    }
  }

  /** `b | (1 << j)` on one byte of a bytearray. */
  function SetByteBit(b: byte, j: nat): (r: byte)
    requires j < 8
  {
    assert Pow2(8) == 0x100;
    SetBitBound(b, j, 8);
    SetBit(b, j)
  }

  /** The number whose bit j is `bs[j]`: the inverse of reading bits. */
  function PackBits(bs: seq<bool>): (x: nat)
    ensures x < Pow2(|bs|)
  {
    if bs == [] then 0 else (if bs[0] then 1 else 0) + 2 * PackBits(bs[1..])
  }

  /** Bit j of a packed number is the j-th bit it was packed from. */
  lemma {:induction false} PackedBit(bs: seq<bool>, j: nat)
    requires j < |bs|
    ensures BitSet(PackBits(bs), j) <==> bs[j]
  {
    if j > 0 {
      assert PackBits(bs) / 2 == PackBits(bs[1..]);
      PackedBit(bs[1..], j - 1);
      assert bs[1..][j - 1] == bs[j];
    }
  }

  /** Two n-bit numbers with the same bits are equal. */
  lemma {:induction false} SameBits(a: nat, b: nat, n: nat)
    requires a < Pow2(n) && b < Pow2(n)
    requires forall j :: 0 <= j < n ==> (BitSet(a, j) <==> BitSet(b, j))
    ensures a == b
  {
    if n > 0 {
      forall j | 0 <= j < n - 1
        ensures BitSet(a / 2, j) <==> BitSet(b / 2, j)
      {
        assert BitSet(a, j + 1) <==> BitSet(b, j + 1);
      }
      SameBits(a / 2, b / 2, n - 1);
      assert BitSet(a, 0) <==> BitSet(b, 0);
    }
  }

  /** The byte whose bit j is `bs[j]`. */
  function PackByte(bs: seq<bool>): byte
    requires |bs| == 8
  {
    assert Pow2(8) == 0x100;
    PackBits(bs)
  }

  // ---------------------------------------------------------------------------
  // Bytearray operations in place
  // ---------------------------------------------------------------------------

  /** `buf[at:at+len(t)] = t` on a bytearray, for a slice inside the buffer. */
  method Write(buf: array<byte>, at: nat, t: seq<byte>)
    requires at + |t| <= buf.Length
    modifies buf
    ensures buf[..] == Splice(old(buf[..]), at, t)
  {
    forall k | 0 <= k < |t| {
      buf[at + k] := t[k];
    }
  }

  /** `s[a:b]` in Python for non-negative bounds: both ends are clamped to the length, and an
      end before the start gives the empty slice. */
  function PySlice<T>(s: seq<T>, a: nat, b: nat): (r: seq<T>)
    ensures |r| == if b <= a || a >= |s| then 0 else (if b <= |s| then b else |s|) - a
  {
    var lo := if a <= |s| then a else |s|;
    var hi := if b <= |s| then b else |s|;
    if hi <= lo then [] else s[lo..hi]
  }
}
