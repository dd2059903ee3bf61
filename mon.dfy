/** The 80-byte box record of a mon. Bytes 0..31 are a clear header (personality value,
    owner id, nickname, language, egg species, owner name, markings, checksum); bytes
    32..79 hold four 12-byte sub-structures. Their storage order is row `personality % 24`
    of a fixed table, and every 32-bit word of them is XOR-ciphered with
    `owner id ^ personality`. */
module MonCodec {
  import opened Bytes
  import opened Profiles
  import opened Checksums
  import opened Outcomes
  import opened Text

  // ---------------------------------------------------------------------------
  // The storage order of the four sub-structures
  // ---------------------------------------------------------------------------

  /** Row `personality % 24` of the order table: sub-structure i is stored in slot
      `Order(personality)[i]`. Reading and writing use this one table. */
  function Order(personality: nat): (pos: seq<nat>)
    ensures IsPermutation(pos)
  {
    match personality % 24
    case 0 => [0, 1, 2, 3]
    case 1 => [0, 1, 3, 2]
    case 2 => [0, 2, 1, 3]
    case 3 => [0, 3, 1, 2]
    case 4 => [0, 2, 3, 1]
    case 5 => [0, 3, 2, 1]
    case 6 => [1, 0, 2, 3]
    case 7 => [1, 0, 3, 2]
    case 8 => [2, 0, 1, 3]
    case 9 => [3, 0, 1, 2]
    case 10 => [2, 0, 3, 1]
    case 11 => [3, 0, 2, 1]
    case 12 => [1, 2, 0, 3]
    case 13 => [1, 3, 0, 2]
    case 14 => [2, 1, 0, 3]
    case 15 => [3, 1, 0, 2]
    case 16 => [2, 3, 0, 1]
    case 17 => [3, 2, 0, 1]
    case 18 => [1, 2, 3, 0]
    case 19 => [1, 3, 2, 0]
    case 20 => [2, 1, 3, 0]
    case 21 => [3, 1, 2, 0]
    case 22 => [2, 3, 1, 0]
    case _ => [3, 2, 1, 0]
  }

  /** Four distinct slot numbers below 4. */
  predicate IsPermutation(pos: seq<nat>)
  {
    && |pos| == 4 && pos[0] < 4 && pos[1] < 4 && pos[2] < 4 && pos[3] < 4
    && pos[0] != pos[1] && pos[0] != pos[2] && pos[0] != pos[3]
    && pos[1] != pos[2] && pos[1] != pos[3] && pos[2] != pos[3]
  }

  /** The sub-structure stored in slot s: the inverse of a permutation. */
  function PositionIn(pos: seq<nat>, s: nat): (i: nat)
    requires IsPermutation(pos) && s < 4
    ensures i < 4 && pos[i] == s
  {
    if pos[0] == s then 0 else if pos[1] == s then 1 else if pos[2] == s then 2 else 3
  }

  /** Four sub-structures of 12 bytes each. */
  predicate Blocks(types: seq<seq<byte>>)
  {
    |types| == 4 && forall i :: 0 <= i < 4 ==> |types[i]| == 12
  }

  /** The 12 bytes of storage slot s. */
  function Stored(raw: seq<byte>, s: nat): (b: seq<byte>)
    requires |raw| >= 80 && s < 4
    ensures |b| == 12
  {
    raw[32 + 12 * s..44 + 12 * s]
  }

  /** Sub-structure i read from slot `pos[i]`. */
  function Gathered(raw: seq<byte>, pos: seq<nat>): (types: seq<seq<byte>>)
    requires |raw| >= 80 && IsPermutation(pos)
    ensures Blocks(types)
  {
    [Stored(raw, pos[0]), Stored(raw, pos[1]), Stored(raw, pos[2]), Stored(raw, pos[3])]
  }

  /** `getTypes`: the four sub-structures of a record, in their natural order. */
  function GetTypes(raw: seq<byte>, personality: nat): (types: seq<seq<byte>>)
    requires |raw| >= 80
    ensures Blocks(types)
  {
    Gathered(raw, Order(personality))
  }

  /** The first n slice assignments of `setTypes`: sub-structure i goes over slot `pos[i]`. */
  function ArrangedUpTo(raw: seq<byte>, types: seq<seq<byte>>, pos: seq<nat>, n: nat): (r: seq<byte>)
    requires |raw| >= 80 && Blocks(types) && IsPermutation(pos) && n <= 4
    ensures |r| == |raw|
  {
    if n == 0 then raw
    else Splice(ArrangedUpTo(raw, types, pos, n - 1), 32 + 12 * pos[n - 1], types[n - 1])
  }

  /** What `setTypes` leaves in the buffer. */
  function Arranged(raw: seq<byte>, types: seq<seq<byte>>, personality: nat): (r: seq<byte>)
    requires |raw| >= 80 && Blocks(types)
    ensures |r| == |raw|
  {
    ArrangedUpTo(raw, types, Order(personality), 4)
  }

  /** `setTypes`: sub-structure i is written over storage slot `Order(personality)[i]`. */
  method SetTypes(rawData: array<byte>, types: seq<seq<byte>>, personality: nat)
    requires rawData.Length >= 80 && Blocks(types)
    modifies rawData
    ensures rawData[..] == Arranged(old(rawData[..]), types, personality)
  {
    var pos := Order(personality);
    for i := 0 to 4
      invariant rawData[..] == ArrangedUpTo(old(rawData[..]), types, pos, i)
    {
      Write(rawData, 32 + 12 * pos[i], types[i]);
    }
  }

  /** Writing slot q puts the new bytes there. */
  lemma StoredSpliceSame(x: seq<byte>, q: nat, t: seq<byte>)
    requires |x| >= 80 && q < 4 && |t| == 12
    ensures Stored(Splice(x, 32 + 12 * q, t), q) == t
  {
    var y := Splice(x, 32 + 12 * q, t);
    forall k | 0 <= k < 12
      ensures Stored(y, q)[k] == t[k]
    {
      assert Stored(y, q)[k] == y[32 + 12 * q + k];
    }
  }

  /** Writing slot q leaves slot s alone. */
  lemma StoredSpliceOther(x: seq<byte>, q: nat, t: seq<byte>, s: nat)
    requires |x| >= 80 && q < 4 && |t| == 12 && s < 4 && s != q
    ensures Stored(Splice(x, 32 + 12 * q, t), s) == Stored(x, s)
  {
    var y := Splice(x, 32 + 12 * q, t);
    assert 44 + 12 * s <= 32 + 12 * q || 44 + 12 * q <= 32 + 12 * s;
    forall k | 0 <= k < 12
      ensures Stored(y, s)[k] == Stored(x, s)[k]
    {
      assert Stored(y, s)[k] == y[32 + 12 * s + k];
    }
  }

  /** After n slice assignments, slot s holds sub-structure `PositionIn(pos, s)` if that one
      was written already, and its old bytes otherwise. */
  lemma {:induction false} ArrangedSlot(raw: seq<byte>, types: seq<seq<byte>>, pos: seq<nat>, n: nat, s: nat)
    requires |raw| >= 80 && Blocks(types) && IsPermutation(pos) && n <= 4 && s < 4
    ensures Stored(ArrangedUpTo(raw, types, pos, n), s)
      == if PositionIn(pos, s) < n then types[PositionIn(pos, s)] else Stored(raw, s)
  {
    if n > 0 {
      var q, i := pos[n - 1], PositionIn(pos, s);
      var prev := ArrangedUpTo(raw, types, pos, n - 1);
      assert ArrangedUpTo(raw, types, pos, n) == Splice(prev, 32 + 12 * q, types[n - 1]);
      ArrangedSlot(raw, types, pos, n - 1, s);
      if s == q {
        assert i == n - 1;
        StoredSpliceSame(prev, q, types[n - 1]);
      } else {
        assert i != n - 1;
        StoredSpliceOther(prev, q, types[n - 1], s);
      }
    }
  }

  /** The slice assignments of `setTypes` leave the header and the bytes after 80 alone. */
  lemma {:induction false} ArrangedEnds(raw: seq<byte>, types: seq<seq<byte>>, pos: seq<nat>, n: nat)
    requires |raw| >= 80 && Blocks(types) && IsPermutation(pos) && n <= 4
    ensures var r := ArrangedUpTo(raw, types, pos, n);
      r[..32] == raw[..32] && r[80..] == raw[80..]
  {
    if n > 0 {
      ArrangedEnds(raw, types, pos, n - 1);
    }
  }

  /** Reading back what was arranged with the same permutation gives the sub-structures. */
  lemma GatheredArranged(raw: seq<byte>, types: seq<seq<byte>>, pos: seq<nat>)
    requires |raw| >= 80 && Blocks(types) && IsPermutation(pos)
    ensures Gathered(ArrangedUpTo(raw, types, pos, 4), pos) == types
  {
    var r := ArrangedUpTo(raw, types, pos, 4);
    assert PositionIn(pos, pos[0]) == 0 && PositionIn(pos, pos[1]) == 1;
    assert PositionIn(pos, pos[2]) == 2 && PositionIn(pos, pos[3]) == 3;
    ArrangedSlot(raw, types, pos, 4, pos[0]);
    ArrangedSlot(raw, types, pos, 4, pos[1]);
    ArrangedSlot(raw, types, pos, 4, pos[2]);
    ArrangedSlot(raw, types, pos, 4, pos[3]);
    assert types == [types[0], types[1], types[2], types[3]];
  }

  /** `getTypes` undoes `setTypes`: the sub-structures written come back in order. */
  lemma GetTypesArranged(raw: seq<byte>, types: seq<seq<byte>>, personality: nat)
    requires |raw| >= 80 && Blocks(types)
    ensures GetTypes(Arranged(raw, types, personality), personality) == types
  {
    GatheredArranged(raw, types, Order(personality));
  }

  /** Two buffers whose four slots agree agree on bytes 32..79. */
  lemma SlotsDetermine(x: seq<byte>, y: seq<byte>)
    requires |x| >= 80 && |y| >= 80
    requires forall s :: 0 <= s < 4 ==> Stored(x, s) == Stored(y, s)
    ensures x[32..80] == y[32..80]
  {
    assert x[32..80] == Stored(x, 0) + Stored(x, 1) + Stored(x, 2) + Stored(x, 3);
    assert y[32..80] == Stored(y, 0) + Stored(y, 1) + Stored(y, 2) + Stored(y, 3);
  }

  /** Arranging the sub-structures gathered from `raw` copies its slots. */
  lemma ArrangedGathered(buf: seq<byte>, raw: seq<byte>, pos: seq<nat>)
    requires |buf| >= 80 && |raw| >= 80 && IsPermutation(pos)
    ensures var r := ArrangedUpTo(buf, Gathered(raw, pos), pos, 4);
      r[..32] == buf[..32] && r[32..80] == raw[32..80] && r[80..] == buf[80..]
  {
    var types := Gathered(raw, pos);
    var r := ArrangedUpTo(buf, types, pos, 4);
    ArrangedEnds(buf, types, pos, 4);
    forall s | 0 <= s < 4
      ensures Stored(r, s) == Stored(raw, s)
    {
      ArrangedSlot(buf, types, pos, 4, s);
      var i := PositionIn(pos, s);
      assert types[i] == Stored(raw, pos[i]);
    }
    SlotsDetermine(r, raw);
  }

  /** `setTypes(buf, getTypes(raw, p), p)` copies bytes 32..79 of `raw` into `buf` and
      leaves every other byte of `buf` as it was. */
  lemma ArrangedGetTypes(buf: seq<byte>, raw: seq<byte>, personality: nat)
    requires |buf| >= 80 && |raw| >= 80
    ensures var r := Arranged(buf, GetTypes(raw, personality), personality);
      r[..32] == buf[..32] && r[32..80] == raw[32..80] && r[80..] == buf[80..]
  {
    ArrangedGathered(buf, raw, Order(personality));
  }

  // ---------------------------------------------------------------------------
  // The word cipher
  // ---------------------------------------------------------------------------

  /** Word i of a block, XOR-ed with the key and packed again. */
  function XorWord(block: seq<byte>, key: u32, i: nat): (w: seq<byte>)
    requires 4 * i + 4 <= |block|
    ensures |w| == 4
  {
    Pack32(Xor32(key, U32At(block, 4 * i)))
  }

  /** The first n words of a block, each XOR-ed with the key. */
  function XorPrefix(block: seq<byte>, key: u32, n: nat): (r: seq<byte>)
    requires 4 * n <= |block|
    ensures |r| == 4 * n
  {
    if n == 0 then [] else XorPrefix(block, key, n - 1) + XorWord(block, key, n - 1)
  }

  /** The three words of a 12-byte sub-structure, each XOR-ed with the key. */
  function XorBlock(block: seq<byte>, key: u32): (r: seq<byte>)
    requires |block| == 12
    ensures |r| == 12
  {
    XorPrefix(block, key, |block| / 4)
  }

  /** `decryptTypes`: the three words are XOR-ed with the key in place; bytes after the
      twelfth are not touched. */
  method DecryptTypes(rawType: array<byte>, key: u32)
    requires rawType.Length == 12
    modifies rawType
    ensures rawType[..] == XorBlock(old(rawType[..]), key)
  {
    ghost var orig := rawType[..];
    var i := 0;
    while i < 3
      invariant 0 <= i <= 3
      invariant rawType[..] == XorPrefix(orig, key, i) + orig[4 * i..]
    {
      ghost var cur := rawType[..];
      var w := U32At(rawType[..], 4 * i);
      DecryptStep(orig, key, i);
      Write(rawType, 4 * i, Pack32(Xor32(key, w)));
      assert rawType[..] == Splice(cur, 4 * i, Pack32(Xor32(key, U32At(cur, 4 * i))));
      i := i + 1;
    }
    assert orig[12..] == [];
  }

  /** One turn of the `decryptTypes` loop ciphers word i and nothing else. */
  lemma DecryptStep(orig: seq<byte>, key: u32, i: nat)
    requires |orig| == 12 && i < 3
    ensures var cur := XorPrefix(orig, key, i) + orig[4 * i..];
      Splice(cur, 4 * i, Pack32(Xor32(key, U32At(cur, 4 * i))))
        == XorPrefix(orig, key, i + 1) + orig[4 * (i + 1)..]
  {
    var done, rest := XorPrefix(orig, key, i), orig[4 * i..];
    U32AtAfterPrefix(done, rest);
    U32AtSlice(orig, 4 * i);
    U32AtSlice(rest, 0);
    assert rest[0..4] == orig[4 * i..4 * i + 4];
    SpliceAfterPrefix(done, rest, XorWord(orig, key, i));
    assert rest[4..] == orig[4 * (i + 1)..];
  }

  /** A ciphered block is its three ciphered words. */
  lemma XorBlockWords(block: seq<byte>, key: u32)
    requires |block| == 12
    ensures XorBlock(block, key) == XorWord(block, key, 0) + XorWord(block, key, 1) + XorWord(block, key, 2)
  {
    assert XorPrefix(block, key, 0) == [];
    assert XorPrefix(block, key, 1) == [] + XorWord(block, key, 0) == XorWord(block, key, 0);
    assert XorPrefix(block, key, 2) == XorWord(block, key, 0) + XorWord(block, key, 1);
  }

  /** Word i of the ciphered block is the key XOR-ed with word i of the block. */
  lemma XorBlockWord(block: seq<byte>, key: u32, i: nat)
    requires |block| == 12 && i < 3
    ensures U32At(XorBlock(block, key), 4 * i) == Xor32(key, U32At(block, 4 * i))
  {
    var r := XorBlock(block, key);
    XorBlockWords(block, key);
    assert r[4 * i..4 * i + 4] == XorWord(block, key, i);
    U32AtSlice(r, 4 * i);
    Unpack32Pack32(Xor32(key, U32At(block, 4 * i)));
  }

  /** Deciphering word i of a ciphered block gives word i of the block back. */
  lemma XorWordTwice(block: seq<byte>, key: u32, i: nat)
    requires |block| == 12 && i < 3
    ensures XorWord(XorBlock(block, key), key, i) == block[4 * i..4 * i + 4]
  {
    XorBlockWord(block, key, i);
    Xor32Twice(key, U32At(block, 4 * i));
    Pack32Unpack32(block, 4 * i);
  }

  /** XOR with the same key twice gives the block back: one routine both ciphers and
      deciphers. */
  lemma XorBlockTwice(block: seq<byte>, key: u32)
    requires |block| == 12
    ensures XorBlock(XorBlock(block, key), key) == block
  {
    var once := XorBlock(block, key);
    XorBlockWords(once, key);
    XorWordTwice(block, key, 0);
    XorWordTwice(block, key, 1);
    XorWordTwice(block, key, 2);
    assert block == block[0..4] + block[4..8] + block[8..12];
  }

  // ---------------------------------------------------------------------------
  // Decoding a record
  // ---------------------------------------------------------------------------

  datatype Trainer = Trainer(id: u32, name: string, cname: seq<byte>)

  /** A decoded record. `cname` fields keep the raw encoded names; `types` holds the four
      deciphered sub-structures in their natural order. */
  datatype Mon = Mon(
    personality: u32,
    trainer: Trainer,
    species: nat,
    name: string,
    cname: seq<byte>,
    lang: byte,
    hiddenNatureModifier: nat,
    eggSpecies: byte,
    markings: byte,
    shiny: bool,
    checksum: u16,
    unknown: u16,
    version: Profile,
    types: seq<seq<byte>>,
    key: u32)
  {
    /** The shape `createMon` gives a record and `serializeMon` relies on. */
    predicate WellFormed()
    {
      |cname| == 10 && |trainer.cname| == PlayerNameLength && Blocks(types)
    }
  }

  /** The species number: the low 11 bits of the first half-word of sub-structure 0. */
  function Species(type0: seq<byte>): nat
    requires |type0| >= 2
  {
    U16At(type0, 0) % 0x800
  }

  /** The shiny test of the 1.3.2 format, applied to both formats: the XOR of the four
      half-words of owner id and personality value is below `ShinyOdds`. */
  predicate Shiny(trainerId: u32, personality: u32)
  {
    Xor(Xor(Xor(trainerId / 0x1_0000, trainerId % 0x1_0000), personality / 0x1_0000),
        personality % 0x1_0000) < ShinyOdds
  }

  /** The four sub-structures of a record of at least 80 bytes, in natural order and
      deciphered with the key. */
  function Deciphered(ba: seq<byte>, key: u32, personality: nat): (types: seq<seq<byte>>)
    requires |ba| >= 80
    ensures Blocks(types)
  {
    var t := GetTypes(ba, personality);
    [XorBlock(t[0], key), XorBlock(t[1], key), XorBlock(t[2], key), XorBlock(t[3], key)]
  }

  /** The record `createMon` builds from a record of at least 80 bytes whose two names
      decoded to `pkmnName` and `trainerName`. */
  function Record(ba: seq<byte>, version: Profile, pkmnName: string, trainerName: string): (m: Mon)
    requires |ba| >= 80
    ensures m.WellFormed()
  {
    var personality := U32At(ba, 0);
    var trainerId := U32At(ba, 4);
    var key := Xor32(trainerId, personality);
    var types := Deciphered(ba, key, personality);
    Mon(personality, Trainer(trainerId, trainerName, ba[20..27]), Species(types[0]),
        pkmnName, ba[8..18],
        if version.V2? then ba[18] % 8 else ba[18],
        if version.V2? then ba[18] / 8 else 0,
        ba[19], ba[27], Shiny(trainerId, personality), U16At(ba, 28), U16At(ba, 30),
        version, types, key)
  }

  /** `createMon`: the decoded record, or the exception a record that is cut short or holds
      an undecodable name raises. A record shorter than 8 bytes fails in `struct.unpack`;
      the name lookups, and the byte reads at 18, 19 and 27, raise an index error; past
      byte 28 a short record fails in `struct.unpack` again. */
  function CreateMon(ba: seq<byte>, version: Profile): (r: Result<Mon>)
    ensures r.Ok? ==> r.value.WellFormed()
  {
    if |ba| < 8 then Err(StructError)
    else
      var pkmnName :- Decoding(PySlice(ba, 8, 18));
      if |ba| < 20 then Err(IndexError)
      else
        var trainerName :- Decoding(PySlice(ba, 20, 27));
        if |ba| < 28 then Err(IndexError)
        else if |ba| < 80 then Err(StructError)
        else Ok(Record(ba, version, pkmnName, trainerName))
  }

  /** No byte of `s` is the one the name lookup fails on. */
  predicate Decodable(s: seq<byte>)
  {
    forall k :: 0 <= k < |s| ==> s[k] != PastEnd
  }

  /** When decoding succeeds, what it gives, and what it fails with otherwise. */
  lemma CreateMonOutcome(ba: seq<byte>, version: Profile)
    ensures CreateMon(ba, version).Ok? <==> |ba| >= 80 && Decodable(ba[8..18]) && Decodable(ba[20..27])
    ensures CreateMon(ba, version).Ok? ==>
      CreateMon(ba, version).value
        == Record(ba, version, Strip(DecodeChars(ba[8..18])), Strip(DecodeChars(ba[20..27])))
    ensures |ba| < 8 ==> CreateMon(ba, version) == Err(StructError)
    ensures 28 <= |ba| < 80 && Decodable(ba[8..18]) && Decodable(ba[20..27]) ==>
      CreateMon(ba, version) == Err(StructError)
    ensures CreateMon(ba, version).Err? ==> CreateMon(ba, version).error in {StructError, IndexError}
  {
    if |ba| >= 28 {
      assert PySlice(ba, 8, 18) == ba[8..18];
      assert PySlice(ba, 20, 27) == ba[20..27];
    }
  }

  // ---------------------------------------------------------------------------
  // Encoding a record
  // ---------------------------------------------------------------------------

  /** `x | (1 << j)` on a 32-bit word. */
  function SetBit32(x: u32, j: nat): u32
    requires j < 32
  {
    Pow2Of16And32();
    SetBitBound(x, j, 32);
    SetBit(x, j)
  }

  /** The record handed to a new owner: the key is rebased by XOR-ing out the old owner id
      and XOR-ing in the new one. An id of 0 leaves the record as it is. */
  function Reowned(mon: Mon, newOtId: u32): Mon
  {
    if newOtId != 0 then
      mon.(key := Xor32(Xor32(mon.key, mon.trainer.id), newOtId), trainer := mon.trainer.(id := newOtId))
    else mon
  }

  /** The 1.3.2 species number in the 2.0 numbering: seven species were added after 898. */
  function RemapSpecies(species: u16): nat
  {
    if species > SpeciesCountV1 then species + (SpeciesCountV2 - SpeciesCountV1) else species
  }

  /** Sub-structure 0 in the 2.0 layout: word 0 becomes the remapped species in its low
      11 bits and held item 0 above them. */
  function RemapType0(type0: seq<byte>): seq<byte>
    requires |type0| == 12
  {
    var heldItem := 0;
    Splice(type0, 0, Pack32(RemapSpecies(U16At(type0, 0)) % 0x800 + heldItem * 0x800))
  }

  /** Sub-structure 3 in the 2.0 layout: a shiny mon gets bit 0 of word 2 set. */
  function RemapType3(type3: seq<byte>, shiny: bool): seq<byte>
    requires |type3| == 12
  {
    var flags := U32At(type3, 8);
    Splice(type3, 8, Pack32(if shiny then SetBit32(flags, 0) else flags))
  }

  /** The sub-structures a 1.3.2 record gets when written to a 2.0 save. */
  function Remapped(mon: Mon, version: Profile): (m: Mon)
    requires mon.WellFormed()
    ensures m.WellFormed()
  {
    if version.V2? && mon.version.V1? then
      mon.(types := [RemapType0(mon.types[0]), mon.types[1], mon.types[2], RemapType3(mon.types[3], mon.shiny)])
    else mon
  }

  /** The clear header `serializeMon` writes: personality, the new owner id, nickname,
      language, egg species, the first seven bytes of the owner name, markings, the stored
      checksum and the unknown half-word. */
  function Header(mon: Mon, newOtId: u32): (h: seq<byte>)
    requires mon.WellFormed()
    ensures |h| == 32
  {
    Pack32(mon.personality) + Pack32(newOtId) + mon.cname + [mon.lang, mon.eggSpecies]
    + mon.trainer.cname[..PlayerNameLength] + [mon.markings] + Pack16(mon.checksum) + Pack16(mon.unknown)
  }

  /** The first n storage slots of a record, each XOR-ciphered with the key, in storage
      order. Ciphering and deciphering are the same operation. */
  function Ciphered(s: seq<byte>, key: u32, n: nat): (r: seq<byte>)
    requires |s| >= 80 && n <= 4
    ensures |r| == 12 * n
  {
    if n == 0 then [] else Ciphered(s, key, n - 1) + XorBlock(Stored(s, n - 1), key)
  }

  /** A record with its clear header kept and its four slots ciphered. */
  function Sealed(s: seq<byte>, key: u32): (r: seq<byte>)
    requires |s| == 80
    ensures |r| == 80
  {
    s[..32] + Ciphered(s, key, 4)
  }

  /** The record `serializeMon` arranges before the checksum and the cipher. */
  function PlainRecord(m: Mon, newOtId: u32): (r: seq<byte>)
    requires m.WellFormed()
    ensures |r| == 80
  {
    Arranged(Header(m, newOtId) + Zeros(48), m.types, m.personality)
  }

  /** A clear record with the record checksum of its 48 sub-structure bytes stored at
      byte 28. */
  function WithChecksum(plain: seq<byte>): (r: seq<byte>)
    requires |plain| == 80
    ensures |r| == 80
  {
    Splice(plain, 28, Pack16(BoxChecksum(plain[32..80], 48)))
  }

  /** What `serializeMon` returns, together with the record as the call leaves it (the
      Python routine updates the record it is given). */
  function Serialized(mon: Mon, version: Profile, newOtId: u32): (r: (seq<byte>, Mon))
    requires mon.WellFormed()
    ensures |r.0| == 80 && r.1.WellFormed()
  {
    var m := Remapped(Reowned(mon, newOtId), version);
    (Sealed(WithChecksum(PlainRecord(m, newOtId)), m.key), m)
  }

  /** The 1.3.2-to-2.0 conversion step of `serializeMon`: the remapped species goes into
      sub-structure 0 with held item 0, and the shiny flag into sub-structure 3. */
  method RemapTypes(m: Mon, version: Profile) returns (m': Mon)
    requires m.WellFormed()
    ensures m' == Remapped(m, version)
  {
    m' := m;
    if version.V2? && m.version.V1? {
      var species: nat := U16At(m.types[0], 0);
      if species > SpeciesCountV1 {
        species := species + (SpeciesCountV2 - SpeciesCountV1);
      }
      var heldItem := 0;
      var type0 := Splice(m.types[0], 0, Pack32(species % 0x800 + heldItem * 0x800));
      var flags := U32At(m.types[3], 8);
      if m.shiny {
        flags := SetBit32(flags, 0);
      }
      var type3 := Splice(m.types[3], 8, Pack32(flags));
      m' := m.(types := [type0, m.types[1], m.types[2], type3]);
    }
  }

  /** One cipher pass of `serializeMon`: slot b is copied out, ciphered and written back. */
  method SealSlot(buf: array<byte>, key: u32, b: nat)
    requires buf.Length == 80 && b < 4
    modifies buf
    ensures buf[..] == Splice(old(buf[..]), 32 + 12 * b, XorBlock(Stored(old(buf[..]), b), key))
  {
    var cur := buf[..];
    var block := new byte[12](k requires 0 <= k < 12 => cur[32 + 12 * b + k]);
    assert block[..] == Stored(cur, b);
    DecryptTypes(block, key);
    Write(buf, 32 + 12 * b, block[..]);
  }

  /** The four cipher passes of `serializeMon`. */
  method SealSlots(buf: array<byte>, key: u32)
    requires buf.Length == 80
    modifies buf
    ensures buf[..] == Sealed(old(buf[..]), key)
  {
    ghost var plain := buf[..];
    var b := 0;
    assert Ciphered(plain, key, 0) == [];
    SplitWithGap(plain, 32);
    while b < 4
      invariant 0 <= b <= 4
      invariant buf[..] == plain[..32] + Ciphered(plain, key, b) + plain[32 + 12 * b..]
    {
      SealStep(plain, key, b);
      SealSlot(buf, key, b);
      b := b + 1;
    }
    assert plain[80..] == [];
    ConcatEmpty(plain[..32] + Ciphered(plain, key, 4));
  }

  /** One cipher pass ciphers the next slot and leaves the rest of the record alone. */
  lemma SealStep(s: seq<byte>, key: u32, b: nat)
    requires |s| == 80 && b < 4
    ensures var cur := s[..32] + Ciphered(s, key, b) + s[32 + 12 * b..];
      Splice(cur, 32 + 12 * b, XorBlock(Stored(cur, b), key))
        == s[..32] + Ciphered(s, key, b + 1) + s[32 + 12 * (b + 1)..]
  {
    var front, rest := s[..32] + Ciphered(s, key, b), s[32 + 12 * b..];
    var t := XorBlock(Stored(s, b), key);
    SliceAfterPrefix(front, rest, 12);
    assert rest[..12] == Stored(s, b);
    SpliceAfterPrefix(front, rest, t);
    assert rest[12..] == s[32 + 12 * (b + 1)..];
    assert Ciphered(s, key, b + 1) == Ciphered(s, key, b) + t;
    Regroup(s[..32], Ciphered(s, key, b), t, rest[12..]);
  }

  /** `serializeMon`: rebase the key, write the header, convert a 1.3.2 record for a 2.0
      save, put the sub-structures in their slots, store the new checksum and cipher. */
  method SerializeMon(mon: Mon, version: Profile, newOtId: u32) returns (ba: seq<byte>, mon': Mon)
    requires mon.WellFormed()
    ensures (ba, mon') == Serialized(mon, version, newOtId)
  {
    var m := mon;
    if newOtId != 0 {
      m := m.(key := Xor32(Xor32(m.key, m.trainer.id), newOtId), trainer := m.trainer.(id := newOtId));
    }
    assert m == Reowned(mon, newOtId);
    var header := Header(m, newOtId);
    var buf := new byte[80](k requires 0 <= k < 80 => if k < 32 then header[k] else 0);
    assert buf[..] == header + Zeros(48);
    m := RemapTypes(m, version);
    assert Header(m, newOtId) == header;
    SetTypes(buf, m.types, m.personality);
    var nchecksum := CalculateChecksumBox(buf[32..80], 48);
    Write(buf, 28, Pack16(nchecksum));
    SealSlots(buf, m.key);
    ba, mon' := buf[..], m;
  }
}
