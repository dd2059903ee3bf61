/** What encoding and decoding a box record promise about each other: a record written by
    `serializeMon` decodes to the record that was written, with the new owner and a checksum
    that matches its contents, and a well-checksummed 1.3.2 record decoded and written back
    for its own owner comes out byte for byte. */
module MonLaws {
  import opened Bytes
  import opened Profiles
  import opened Checksums
  import opened Text
  import opened MonCodec

  // ---------------------------------------------------------------------------
  // The cipher passes, slot by slot
  // ---------------------------------------------------------------------------

  /** A 32-element header followed by four 12-element slots, sliced back apart. */
  lemma RecordSlices<T>(h: seq<T>, x0: seq<T>, x1: seq<T>, x2: seq<T>, x3: seq<T>)
    requires |h| == 32 && |x0| == 12 && |x1| == 12 && |x2| == 12 && |x3| == 12
    ensures var r := h + (x0 + x1 + x2 + x3);
      && r[..32] == h && r[32..44] == x0 && r[44..56] == x1 && r[56..68] == x2 && r[68..80] == x3
  {
  }

  /** All four slots ciphered, in storage order. */
  lemma CipheredSlots(s: seq<byte>, key: u32)
    requires |s| >= 80
    ensures Ciphered(s, key, 4) == XorBlock(Stored(s, 0), key) + XorBlock(Stored(s, 1), key)
      + XorBlock(Stored(s, 2), key) + XorBlock(Stored(s, 3), key)
  {
    var x0 := XorBlock(Stored(s, 0), key);
    assert Ciphered(s, key, 0) == [];
    assert Ciphered(s, key, 1) == Ciphered(s, key, 0) + x0;
    EmptyConcat(x0);
    assert Ciphered(s, key, 2) == Ciphered(s, key, 1) + XorBlock(Stored(s, 1), key);
    assert Ciphered(s, key, 3) == Ciphered(s, key, 2) + XorBlock(Stored(s, 2), key);
  }

  /** The ciphered record keeps the header and holds each slot ciphered. */
  lemma SealedSlots(s: seq<byte>, key: u32)
    requires |s| == 80
    ensures Sealed(s, key)[..32] == s[..32]
    ensures Stored(Sealed(s, key), 0) == XorBlock(Stored(s, 0), key)
    ensures Stored(Sealed(s, key), 1) == XorBlock(Stored(s, 1), key)
    ensures Stored(Sealed(s, key), 2) == XorBlock(Stored(s, 2), key)
    ensures Stored(Sealed(s, key), 3) == XorBlock(Stored(s, 3), key)
  {
    var x0, x1 := XorBlock(Stored(s, 0), key), XorBlock(Stored(s, 1), key);
    var x2, x3 := XorBlock(Stored(s, 2), key), XorBlock(Stored(s, 3), key);
    CipheredSlots(s, key);
    RecordSlices(s[..32], x0, x1, x2, x3);
    var r := Sealed(s, key);
    assert r == s[..32] + (x0 + x1 + x2 + x3);
    assert Stored(r, 0) == r[32..44] && Stored(r, 1) == r[44..56];
    assert Stored(r, 2) == r[56..68] && Stored(r, 3) == r[68..80];
  }

  /** A write inside the header leaves the four slots alone. */
  lemma StoredAfterHeaderWrite(x: seq<byte>, at: nat, t: seq<byte>, s: nat)
    requires |x| >= 80 && at + |t| <= 32 && s < 4
    ensures Stored(Splice(x, at, t), s) == Stored(x, s)
  {
    var y := Splice(x, at, t);
    forall k | 0 <= k < 12
      ensures Stored(y, s)[k] == Stored(x, s)[k]
    {
      assert Stored(y, s)[k] == y[32 + 12 * s + k];
    }
  }

  /** An 80-byte record is its header and its four slots. */
  lemma RecordFromParts(x: seq<byte>, y: seq<byte>)
    requires |x| == 80 && |y| == 80 && x[..32] == y[..32]
    requires forall s :: 0 <= s < 4 ==> Stored(x, s) == Stored(y, s)
    ensures x == y
  {
    SlotsDetermine(x, y);
    assert x == x[..32] + x[32..80];
    assert y == y[..32] + y[32..80];
  }

  /** The 48 bytes after the header are the four slots in storage order. */
  lemma SlotsConcat(x: seq<byte>)
    requires |x| >= 80
    ensures x[32..80] == Stored(x, 0) + Stored(x, 1) + Stored(x, 2) + Stored(x, 3)
  {
  }

  // ---------------------------------------------------------------------------
  // The key
  // ---------------------------------------------------------------------------

  /** Rebasing a consistent key by the old and the new owner id gives the key of the new
      owner: `(t ^ p) ^ t ^ n == n ^ p`. */
  lemma RebasedKey(t: u32, p: u32, n: u32)
    ensures Xor32(Xor32(Xor32(t, p), t), n) == Xor32(n, p)
  {
    XorComm(t, p);
    XorInvolution(p, t);
    XorComm(p, n);
  }

  /** Rebasing for the owner the record already has keeps the key. */
  lemma SameOwnerKey(key: u32, t: u32)
    ensures Xor32(Xor32(key, t), t) == key
  {
    XorInvolution(key, t);
  }

  // ---------------------------------------------------------------------------
  // Reading the header back
  // ---------------------------------------------------------------------------

  /** The header fields as `createMon` reads them back from the written header, after the
      checksum half-word has been replaced. */
  lemma HeaderFields(m: Mon, newOtId: u32, sum: u16)
    requires m.WellFormed()
    ensures var h := Splice(Header(m, newOtId), 28, Pack16(sum));
      && U32At(h, 0) == m.personality && U32At(h, 4) == newOtId
      && h[8..18] == m.cname && h[18] == m.lang && h[19] == m.eggSpecies
      && h[20..27] == m.trainer.cname && h[27] == m.markings
      && U16At(h, 28) == sum && U16At(h, 30) == m.unknown
  {
    var h0 := Header(m, newOtId);
    var h := Splice(h0, 28, Pack16(sum));
    assert h0[0..4] == Pack32(m.personality);
    assert h0[4..8] == Pack32(newOtId);
    assert h0[30..32] == Pack16(m.unknown);
    assert h[0..4] == h0[0..4] && h[4..8] == h0[4..8] && h[30..32] == h0[30..32];
    SpliceRead(h0, 28, Pack16(sum));
    U32AtSlice(h, 0);
    U32AtSlice(h, 4);
    Unpack32Pack32(m.personality);
    Unpack32Pack32(newOtId);
    Unpack16Pack16(sum);
    Unpack16Pack16(m.unknown);
    assert U16At(h, 28) == U16At(h[28..30], 0);
    assert U16At(h, 30) == U16At(h[30..32], 0);
    assert h[8..18] == h0[8..18] == m.cname;
    assert h[20..27] == h0[20..27] == m.trainer.cname;
  }

  // ---------------------------------------------------------------------------
  // Converting 1.3.2 records
  // ---------------------------------------------------------------------------

  /** The first word of a converted sub-structure 0 holds the species renumbered for 2.0
      (seven more above 898) in its low half-word and held item 0 in its high half-word;
      the experience and the rest are kept. */
  lemma RemapType0Fields(type0: seq<byte>)
    requires |type0| == 12
    ensures var r := RemapType0(type0);
      && |r| == 12 && r[4..] == type0[4..] && U16At(r, 2) == 0
      && U16At(r, 0) == Species(r)
      && (U16At(type0, 0) <= SpeciesCountV1 ==> Species(r) == U16At(type0, 0))
      && (SpeciesCountV1 < U16At(type0, 0) < 0x800 - (SpeciesCountV2 - SpeciesCountV1) ==>
            Species(r) == U16At(type0, 0) + (SpeciesCountV2 - SpeciesCountV1))
  {
    var x := RemapSpecies(U16At(type0, 0)) % 0x800;
    var r := RemapType0(type0);
    assert r[..4] == Pack32(x);
    assert r[2] == 0 && r[3] == 0;
  }

  /** A converted sub-structure 3 has bit 0 of its third word set when the record is shiny,
      every other bit of that word as it was, and its first eight bytes unchanged. */
  lemma RemapType3Fields(type3: seq<byte>, shiny: bool)
    requires |type3| == 12
    ensures var r := RemapType3(type3, shiny);
      && |r| == 12 && r[..8] == type3[..8]
      && (BitSet(U32At(r, 8), 0) <==> shiny || BitSet(U32At(type3, 8), 0))
      && forall j :: 0 < j < 32 ==> (BitSet(U32At(r, 8), j) <==> BitSet(U32At(type3, 8), j))
  {
    var flags := U32At(type3, 8);
    var f := if shiny then SetBit32(flags, 0) else flags;
    var r := RemapType3(type3, shiny);
    assert r[8..12] == Pack32(f);
    U32AtSlice(r, 8);
    Unpack32Pack32(f);
    assert U32At(r, 8) == f;
    if shiny {
      SetBitEffect(flags, 0, 0);
      forall j | 0 < j < 32
        ensures BitSet(U32At(r, 8), j) <==> BitSet(flags, j)
      {
        SetBitEffect(flags, 0, j);
      }
    }
  }

  // ---------------------------------------------------------------------------
  // Decoding what was encoded
  // ---------------------------------------------------------------------------

  /** A checksummed and ciphered record keeps the clear header, with the checksum of the
      clear sub-structures at byte 28. */
  lemma SealedHeader(p: seq<byte>, key: u32)
    requires |p| == 80
    ensures Sealed(WithChecksum(p), key)[..32] == Splice(p[..32], 28, Pack16(BoxChecksum(p[32..80], 48)))
  {
    var s1 := WithChecksum(p);
    SealedSlots(s1, key);
    assert s1[..32] == Splice(p[..32], 28, Pack16(BoxChecksum(p[32..80], 48)));
  }

  /** Slot b of a checksummed and ciphered record is slot b of the clear record, ciphered. */
  lemma SealedSlot(p: seq<byte>, key: u32, b: nat)
    requires |p| == 80 && b < 4
    ensures Stored(Sealed(WithChecksum(p), key), b) == XorBlock(Stored(p, b), key)
  {
    var s1 := WithChecksum(p);
    SealedSlots(s1, key);
    StoredAfterHeaderWrite(p, 28, Pack16(BoxChecksum(p[32..80], 48)), b);
  }

  /** The header `serializeMon` writes: the clear header with the new checksum. */
  lemma SerializedHeader(mon: Mon, version: Profile, newOtId: u32)
    requires mon.WellFormed()
    ensures var m := Serialized(mon, version, newOtId).1;
      var sum := BoxChecksum(PlainRecord(m, newOtId)[32..80], 48);
      Serialized(mon, version, newOtId).0[..32] == Splice(Header(m, newOtId), 28, Pack16(sum))
  {
    var m := Serialized(mon, version, newOtId).1;
    var s0 := Header(m, newOtId) + Zeros(48);
    var plain := PlainRecord(m, newOtId);
    ArrangedEnds(s0, m.types, Order(m.personality), 4);
    SealedHeader(plain, m.key);
    assert s0[..32] == Header(m, newOtId);
  }

  /** Slot b of the bytes `serializeMon` produces is slot b of the arranged record,
      ciphered. */
  lemma SerializedSlot(mon: Mon, version: Profile, newOtId: u32, b: nat)
    requires mon.WellFormed() && b < 4
    ensures var m := Serialized(mon, version, newOtId).1;
      Stored(Serialized(mon, version, newOtId).0, b) == XorBlock(Stored(PlainRecord(m, newOtId), b), m.key)
  {
    var m := Serialized(mon, version, newOtId).1;
    SealedSlot(PlainRecord(m, newOtId), m.key, b);
  }

  /** Sub-structure i of the written record, deciphered, is sub-structure i of the record
      that was written. */
  lemma SerializedTypes(mon: Mon, version: Profile, newOtId: u32, i: nat)
    requires mon.WellFormed() && i < 4
    ensures var m := Serialized(mon, version, newOtId).1;
      XorBlock(Stored(Serialized(mon, version, newOtId).0, Order(m.personality)[i]), m.key) == m.types[i]
  {
    var m := Serialized(mon, version, newOtId).1;
    var pos := Order(m.personality);
    var plain := PlainRecord(m, newOtId);
    SerializedSlot(mon, version, newOtId, pos[i]);
    ArrangedSlot(Header(m, newOtId) + Zeros(48), m.types, pos, 4, pos[i]);
    assert PositionIn(pos, pos[i]) == i;
    XorBlockTwice(Stored(plain, pos[i]), m.key);
  }

  /** Four sub-structures that each decipher from the slot the order table gives them are
      exactly what `getTypes` and `decryptTypes` recover. */
  lemma DecipheredSlots(ba: seq<byte>, key: u32, personality: nat, types: seq<seq<byte>>)
    requires |ba| >= 80 && |types| == 4
    requires XorBlock(Stored(ba, Order(personality)[0]), key) == types[0]
    requires XorBlock(Stored(ba, Order(personality)[1]), key) == types[1]
    requires XorBlock(Stored(ba, Order(personality)[2]), key) == types[2]
    requires XorBlock(Stored(ba, Order(personality)[3]), key) == types[3]
    ensures Deciphered(ba, key, personality) == types
  {
    FourElements(types);
  }

  /** The fields of the record `createMon` builds, as read from its bytes. */
  lemma RecordReads(ba: seq<byte>, version: Profile, pkmnName: string, trainerName: string)
    requires |ba| >= 80
    ensures var d := Record(ba, version, pkmnName, trainerName);
      && d.personality == U32At(ba, 0) && d.trainer.id == U32At(ba, 4)
      && d.key == Xor32(U32At(ba, 4), U32At(ba, 0))
      && d.types == Deciphered(ba, d.key, d.personality)
      && d.cname == ba[8..18] && d.trainer.cname == ba[20..27]
      && d.eggSpecies == ba[19] && d.markings == ba[27]
      && d.checksum == U16At(ba, 28) && d.unknown == U16At(ba, 30)
      && d.lang == (if version.V2? then ba[18] % 8 else ba[18])
      && d.version == version
  {
  }

  /** The header fields are read from the first 32 bytes alone. */
  lemma HeaderReads(ba: seq<byte>)
    requires |ba| >= 80
    ensures var h := ba[..32];
      && U32At(ba, 0) == U32At(h, 0) && U32At(ba, 4) == U32At(h, 4)
      && ba[8..18] == h[8..18] && ba[18] == h[18] && ba[19] == h[19]
      && ba[20..27] == h[20..27] && ba[27] == h[27]
      && U16At(ba, 28) == U16At(h, 28) && U16At(ba, 30) == U16At(h, 30)
  {
  }

  /** An 80-byte record whose header is the clear header of `m` with checksum `sum`
      decodes to `m`'s header fields, and to the sub-structures its slots decipher to. */
  lemma HeaderDecodes(out: seq<byte>, version: Profile, m: Mon, newOtId: u32, sum: u16)
    requires |out| == 80 && m.WellFormed() && Decodable(m.cname) && Decodable(m.trainer.cname)
    requires out[..32] == Splice(Header(m, newOtId), 28, Pack16(sum))
    ensures CreateMon(out, version).Ok?
    ensures var d := CreateMon(out, version).value;
      && d.personality == m.personality && d.trainer.id == newOtId
      && d.key == Xor32(newOtId, m.personality)
      && d.types == Deciphered(out, d.key, d.personality)
      && d.cname == m.cname && d.trainer.cname == m.trainer.cname
      && d.eggSpecies == m.eggSpecies && d.markings == m.markings && d.unknown == m.unknown
      && d.lang == (if version.V2? then m.lang % 8 else m.lang)
      && d.checksum == sum
  {
    HeaderFields(m, newOtId, sum);
    HeaderReads(out);
    CreateMonOutcome(out, version);
    RecordReads(out, version, Strip(DecodeChars(out[8..18])), Strip(DecodeChars(out[20..27])));
  }

  /** An 80-byte record whose header is the clear header of `m` with checksum `sum`, and
      whose slots decipher to the sub-structures of `m`, decodes to `m`'s fields. */
  lemma DecodesWritten(out: seq<byte>, version: Profile, m: Mon, newOtId: u32, sum: u16)
    requires |out| == 80 && m.WellFormed() && Decodable(m.cname) && Decodable(m.trainer.cname)
    requires out[..32] == Splice(Header(m, newOtId), 28, Pack16(sum))
    requires m.key == Xor32(newOtId, m.personality)
    requires XorBlock(Stored(out, Order(m.personality)[0]), m.key) == m.types[0]
    requires XorBlock(Stored(out, Order(m.personality)[1]), m.key) == m.types[1]
    requires XorBlock(Stored(out, Order(m.personality)[2]), m.key) == m.types[2]
    requires XorBlock(Stored(out, Order(m.personality)[3]), m.key) == m.types[3]
    ensures CreateMon(out, version).Ok?
    ensures var d := CreateMon(out, version).value;
      && d.personality == m.personality && d.trainer.id == newOtId && d.key == m.key
      && d.types == m.types
      && d.cname == m.cname && d.trainer.cname == m.trainer.cname
      && d.eggSpecies == m.eggSpecies && d.markings == m.markings && d.unknown == m.unknown
      && d.lang == (if version.V2? then m.lang % 8 else m.lang)
      && d.checksum == sum
  {
    HeaderDecodes(out, version, m, newOtId, sum);
    DecipheredSlots(out, m.key, m.personality, m.types);
  }

  /** Decoding a record `serializeMon` wrote: it decodes whenever its names do, to the
      record as written (same personality, key, sub-structures, names, egg species,
      markings and unknown half-word), owned by the new id, with a stored checksum that
      matches the deciphered sub-structures. A 2.0 save keeps only `lang & 7`. The key must
      be the one `createMon` derives, and an id of 0 rebases nothing, so it only reproduces
      an owner whose id is 0. */
  lemma SerializedDecodes(mon: Mon, version: Profile, newOtId: u32)
    requires mon.WellFormed() && Decodable(mon.cname) && Decodable(mon.trainer.cname)
    requires mon.key == Xor32(mon.trainer.id, mon.personality)
    requires newOtId != 0 || mon.trainer.id == 0
    ensures var r := Serialized(mon, version, newOtId);
      && CreateMon(r.0, version).Ok?
      && var d := CreateMon(r.0, version).value;
      && d.personality == r.1.personality == mon.personality
      && d.trainer.id == r.1.trainer.id == newOtId
      && d.key == r.1.key == Xor32(newOtId, mon.personality)
      && d.types == r.1.types
      && d.cname == r.1.cname && d.trainer.cname == r.1.trainer.cname
      && d.eggSpecies == r.1.eggSpecies && d.markings == r.1.markings && d.unknown == r.1.unknown
      && d.lang == (if version.V2? then r.1.lang % 8 else r.1.lang)
      && d.checksum == BoxChecksum(Ciphered(r.0, d.key, 4), 48)
  {
    var r := Serialized(mon, version, newOtId);
    var m, out := r.1, r.0;
    var sum := BoxChecksum(PlainRecord(m, newOtId)[32..80], 48);
    SerializedHeader(mon, version, newOtId);
    if newOtId != 0 {
      RebasedKey(mon.trainer.id, mon.personality, newOtId);
    }
    SerializedTypes(mon, version, newOtId, 0);
    SerializedTypes(mon, version, newOtId, 1);
    SerializedTypes(mon, version, newOtId, 2);
    SerializedTypes(mon, version, newOtId, 3);
    SerializedChecksum(mon, version, newOtId);
    DecodesWritten(out, version, m, newOtId, sum);
  }

  /** Deciphering the slots `serializeMon` wrote gives back the clear bytes the stored
      checksum was computed over. */
  lemma SerializedChecksum(mon: Mon, version: Profile, newOtId: u32)
    requires mon.WellFormed()
    ensures var r := Serialized(mon, version, newOtId);
      Ciphered(r.0, r.1.key, 4) == PlainRecord(r.1, newOtId)[32..80]
  {
    var r := Serialized(mon, version, newOtId);
    var m, out := r.1, r.0;
    var plain := PlainRecord(m, newOtId);
    SerializedSlot(mon, version, newOtId, 0);
    SerializedSlot(mon, version, newOtId, 1);
    SerializedSlot(mon, version, newOtId, 2);
    SerializedSlot(mon, version, newOtId, 3);
    XorBlockTwice(Stored(plain, 0), m.key);
    XorBlockTwice(Stored(plain, 1), m.key);
    XorBlockTwice(Stored(plain, 2), m.key);
    XorBlockTwice(Stored(plain, 3), m.key);
    CipheredSlots(out, m.key);
    SlotsConcat(plain);
  }

  // ---------------------------------------------------------------------------
  // Writing back what was read
  // ---------------------------------------------------------------------------

  /** The header `serializeMon` writes for a decoded record and its own owner is the header
      that was read, with the language byte as decoded. */
  lemma DecodedHeader(ba: seq<byte>, version: Profile, pkmnName: string, trainerName: string)
    requires |ba| >= 80
    ensures var m := Record(ba, version, pkmnName, trainerName);
      Header(m, m.trainer.id) == Splice(ba[..32], 18, [m.lang])
  {
    var m := Record(ba, version, pkmnName, trainerName);
    RecordReads(ba, version, pkmnName, trainerName);
    Pack32Unpack32(ba, 0);
    Pack32Unpack32(ba, 4);
    Pack16Unpack16(ba, 28);
    Pack16Unpack16(ba, 30);
    assert m.trainer.cname[..PlayerNameLength] == ba[20..27];
    assert Header(m, m.trainer.id) == ba[0..4] + ba[4..8] + ba[8..18] + [m.lang, ba[19]] + ba[20..27] + [ba[27]]
      + ba[28..30] + ba[30..32];
    HeaderBytes(ba, m.lang);
  }

  /** The header fields laid out again, with byte 18 replaced, are the first 32 bytes with
      byte 18 replaced. */
  lemma HeaderBytes(ba: seq<byte>, lang: byte)
    requires |ba| >= 32
    ensures ba[0..4] + ba[4..8] + ba[8..18] + [lang, ba[19]] + ba[20..27] + [ba[27]] + ba[28..30] + ba[30..32]
      == Splice(ba[..32], 18, [lang])
  {
    var h := ba[0..4] + ba[4..8] + ba[8..18] + [lang, ba[19]] + ba[20..27] + [ba[27]] + ba[28..30] + ba[30..32];
    var y := Splice(ba[..32], 18, [lang]);
    forall k | 0 <= k < 32
      ensures h[k] == y[k]
    {
    }
  }

  /** Slot s of the record `serializeMon` arranges for a decoded record is slot s of the
      bytes it was decoded from, deciphered. */
  lemma DecodedSlot(ba: seq<byte>, version: Profile, pkmnName: string, trainerName: string, newOtId: u32, s: nat)
    requires |ba| >= 80 && s < 4
    ensures var m := Record(ba, version, pkmnName, trainerName);
      Stored(PlainRecord(m, newOtId), s) == XorBlock(Stored(ba, s), m.key)
  {
    var m := Record(ba, version, pkmnName, trainerName);
    RecordReads(ba, version, pkmnName, trainerName);
    var pos := Order(m.personality);
    var i := PositionIn(pos, s);
    ArrangedSlot(Header(m, newOtId) + Zeros(48), m.types, pos, 4, s);
    assert m.types[i] == XorBlock(GetTypes(ba, m.personality)[i], m.key);
  }

  /** Handing a record to the owner it already has, in the format it was read from, leaves
      it as it is. */
  lemma SameOwnerSerialized(m: Mon, version: Profile)
    requires m.WellFormed() && m.version == version
    ensures Serialized(m, version, m.trainer.id).1 == m
  {
    SameOwnerKey(m.key, m.trainer.id);
    assert m.trainer.(id := m.trainer.id) == m.trainer;
  }

  /** Decoding a record and writing it back for its own owner in the same format gives the
      first 80 bytes back, except the language byte, which holds the decoded language, and
      the checksum half-word at 28, which holds the record checksum of the deciphered
      sub-structures. */
  lemma SerializedRecord(ba: seq<byte>, version: Profile)
    requires CreateMon(ba, version).Ok?
    ensures var m := CreateMon(ba, version).value;
      var r := Serialized(m, version, m.trainer.id);
      && r.1 == m
      && r.0 == Splice(Splice(ba[..80], 18, [m.lang]), 28, Pack16(BoxChecksum(Ciphered(ba, m.key, 4), 48)))
  {
    CreateMonOutcome(ba, version);
    var a, b := Strip(DecodeChars(ba[8..18])), Strip(DecodeChars(ba[20..27]));
    var m := CreateMon(ba, version).value;
    RecordReads(ba, version, a, b);
    SameOwnerSerialized(m, version);
    var t := m.trainer.id;
    var out := Serialized(m, version, t).0;
    var plain := PlainRecord(m, t);
    DecodedSlot(ba, version, a, b, t, 0);
    DecodedSlot(ba, version, a, b, t, 1);
    DecodedSlot(ba, version, a, b, t, 2);
    DecodedSlot(ba, version, a, b, t, 3);
    ClearSlots(plain, ba, m.key);
    SerializedHeader(m, version, t);
    DecodedHeader(ba, version, a, b);
    SerializedSlot(m, version, t, 0);
    SerializedSlot(m, version, t, 1);
    SerializedSlot(m, version, t, 2);
    SerializedSlot(m, version, t, 3);
    XorBlockTwice(Stored(ba, 0), m.key);
    XorBlockTwice(Stored(ba, 1), m.key);
    XorBlockTwice(Stored(ba, 2), m.key);
    XorBlockTwice(Stored(ba, 3), m.key);
    RestoredRecord(ba, out, m.lang, BoxChecksum(Ciphered(ba, m.key, 4), 48));
  }

  /** A record whose slots hold the slots of `ba` deciphered holds `ba`'s deciphered slots,
      in storage order, after its header. */
  lemma ClearSlots(plain: seq<byte>, ba: seq<byte>, key: u32)
    requires |plain| == 80 && |ba| >= 80
    requires Stored(plain, 0) == XorBlock(Stored(ba, 0), key)
    requires Stored(plain, 1) == XorBlock(Stored(ba, 1), key)
    requires Stored(plain, 2) == XorBlock(Stored(ba, 2), key)
    requires Stored(plain, 3) == XorBlock(Stored(ba, 3), key)
    ensures plain[32..80] == Ciphered(ba, key, 4)
  {
    SlotsConcat(plain);
    CipheredSlots(ba, key);
  }

  /** The slots of a record are those of its first 80 bytes. */
  lemma PrefixStored(ba: seq<byte>, s: nat)
    requires |ba| >= 80 && s < 4
    ensures Stored(ba[..80], s) == Stored(ba, s)
  {
    forall k | 0 <= k < 12
      ensures Stored(ba[..80], s)[k] == Stored(ba, s)[k]
    {
      assert Stored(ba[..80], s)[k] == ba[..80][32 + 12 * s + k];
    }
  }

  /** The header of the written-back bytes is the header read, with both header writes. */
  lemma WrittenBack(ba: seq<byte>, lang: byte, sum: u16, out: seq<byte>)
    requires |ba| >= 80 && |out| == 80
    requires out[..32] == Splice(Splice(ba[..32], 18, [lang]), 28, Pack16(sum))
    ensures out[..32] == Splice(Splice(ba[..80], 18, [lang]), 28, Pack16(sum))[..32]
  {
    var y := Splice(Splice(ba[..80], 18, [lang]), 28, Pack16(sum));
    forall k | 0 <= k < 32
      ensures out[k] == y[k]
    {
      assert out[k] == out[..32][k];
    }
  }

  /** An 80-byte record with `ba`'s slots and `ba`'s header, language byte and checksum
      half-word replaced, is `ba`'s first 80 bytes with those two writes. */
  lemma RestoredRecord(ba: seq<byte>, out: seq<byte>, lang: byte, sum: u16)
    requires |ba| >= 80 && |out| == 80
    requires out[..32] == Splice(Splice(ba[..32], 18, [lang]), 28, Pack16(sum))
    requires Stored(out, 0) == Stored(ba, 0) && Stored(out, 1) == Stored(ba, 1)
    requires Stored(out, 2) == Stored(ba, 2) && Stored(out, 3) == Stored(ba, 3)
    ensures out == Splice(Splice(ba[..80], 18, [lang]), 28, Pack16(sum))
  {
    var y := Splice(Splice(ba[..80], 18, [lang]), 28, Pack16(sum));
    WrittenBack(ba, lang, sum, out);
    forall s | 0 <= s < 4
      ensures Stored(out, s) == Stored(y, s)
    {
      StoredAfterHeaderWrite(ba[..80], 18, [lang], s);
      StoredAfterHeaderWrite(Splice(ba[..80], 18, [lang]), 28, Pack16(sum), s);
      PrefixStored(ba, s);
      assert s == 0 || s == 1 || s == 2 || s == 3;
    }
    RecordFromParts(out, y);
  }

  /** A 1.3.2 record whose stored checksum matches its sub-structures comes back byte for
      byte when written for its own owner in the 1.3.2 format. */
  lemma SerializedRecordExact(ba: seq<byte>)
    requires CreateMon(ba, V1).Ok?
    requires U16At(ba, 28) == BoxChecksum(Ciphered(ba, CreateMon(ba, V1).value.key, 4), 48)
    ensures var m := CreateMon(ba, V1).value;
      Serialized(m, V1, m.trainer.id) == (ba[..80], m)
  {
    var m := CreateMon(ba, V1).value;
    SerializedRecord(ba, V1);
    CreateMonOutcome(ba, V1);
    RecordReads(ba, V1, Strip(DecodeChars(ba[8..18])), Strip(DecodeChars(ba[20..27])));
    var x := ba[..80];
    var x1 := Splice(x, 18, [m.lang]);
    assert x1 == x;
    Pack16Unpack16(ba, 28);
    var x2 := Splice(x1, 28, Pack16(U16At(ba, 28)));
    assert x2 == x;
  }
}
