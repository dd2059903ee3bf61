/** The top of the converter: the SB1 writes of the snapshot pass (money, bag and pokedex),
    `processObjects` over the slot-1 region buffers, and `processSavFile`, which reads a file
    image under the 1.3.2 layout and falls back to the 2.0 layout when the version check
    rejects it. */
module SaveConverter {
  import opened Bytes
  import opened Profiles
  import opened Outcomes
  import opened Text
  import opened MonCodec
  import opened Pokedex
  import opened ItemBag
  import opened SaveBag
  import opened SaveTranscoder
  import SectorStore

  /** Where the SB1 fields the pass writes lie: the money word before the bag, the bag before
      the two pokedex masks, and the masks inside the four sectors of SB1. */
  lemma Sb1Layout(p: Profile)
    ensures PlayerPartyCountOffset < p.MoneyOffset()
    ensures p.MoneyOffset() + 4 <= p.ItemsOffset()
    ensures BagEnd(p) <= p.DexSeenOffset()
    ensures DexEnd(p) <= 4 * p.DataSize()
  {
    ProfileLayout(p);
  }

  // ---------------------------------------------------------------------------
  // Money
  // ---------------------------------------------------------------------------

  /** The money SB1 holds: its money word XORed with the encryption key. */
  function StoredMoney(p: Profile, sb1: seq<byte>, key: u32): u32
    requires p.MoneyOffset() + 4 <= |sb1|
  {
    Xor32(key, U32At(sb1, p.MoneyOffset()))
  }

  /** The money tamper, for a positive amount: the amount XORed with the key is packed as an
      unsigned 32-bit word, which `struct.pack` refuses when the XOR does not fit, that is
      when the amount itself does not. */
  method WriteMoney(p: Profile, sb1: array<byte>, key: u32, money: int) returns (r: Result<()>)
    requires p.MoneyOffset() + 4 <= sb1.Length && money > 0
    modifies sb1
    ensures r.Ok? <==> money < 0x1_0000_0000
    ensures r.Err? ==> r.error == StructError && sb1[..] == old(sb1[..])
    ensures r.Ok? ==> sb1[..] == Splice(old(sb1[..]), p.MoneyOffset(), Pack32(Xor32(key, money)))
  {
    Pow2Of16And32();
    XorHigh(key, money, 32);
    var sealed := Xor(key, money);
    if sealed >= 0x1_0000_0000 {
      return Err(StructError);
    }
    Write(sb1, p.MoneyOffset(), Pack32(sealed));
    r := Ok(());
  }

  /** Money written by the tamper reads back as the amount. */
  lemma MoneyRoundTrip(p: Profile, sb1: seq<byte>, key: u32, money: u32)
    requires p.MoneyOffset() + 4 <= |sb1|
    ensures StoredMoney(p, Splice(sb1, p.MoneyOffset(), Pack32(Xor32(key, money))), key) == money
  {
    var word := Pack32(Xor32(key, money));
    var s := Splice(sb1, p.MoneyOffset(), word);
    SpliceRead(sb1, p.MoneyOffset(), word);
    U32AtSlice(s, p.MoneyOffset());
    Unpack32Pack32(Xor32(key, money));
    Xor32Twice(key, money);
  }

  // ---------------------------------------------------------------------------
  // The pokedex masks
  // ---------------------------------------------------------------------------

  /** Where the caught mask, which follows the seen mask, ends in SB1. */
  function DexEnd(p: Profile): nat
  {
    p.DexCaughtOffset() + p.DexSize()
  }

  /** The bytes of SB1 inside one of the two masks. */
  predicate InDex(p: Profile, b: int)
  {
    p.DexSeenOffset() <= b < DexEnd(p)
  }

  function DexSeen(p: Profile, sb1: seq<byte>): (seen: seq<byte>)
    requires DexEnd(p) <= |sb1|
    ensures |seen| == p.DexSize()
  {
    sb1[p.DexSeenOffset()..p.DexCaughtOffset()]
  }

  function DexCaught(p: Profile, sb1: seq<byte>): (caught: seq<byte>)
    requires DexEnd(p) <= |sb1|
    ensures |caught| == p.DexSize()
  {
    sb1[p.DexCaughtOffset()..DexEnd(p)]
  }

  /** The statuses the snapshot reports for SB1. */
  function DexOf(p: Profile, sb1: seq<byte>): (r: Result<seq<nat>>)
    requires DexEnd(p) <= |sb1|
    ensures r.Ok? && |r.value| == DexLength(DexSeen(p, sb1), DexCaught(p, sb1), p)
  {
    DexData(DexSeen(p, sb1), DexCaught(p, sb1), p)
  }

  /** SB1 after the `fullPokedex` tamper: every byte of both masks is 0xFF. */
  function DexFilled(p: Profile, sb1: seq<byte>): (r: seq<byte>)
    requires DexEnd(p) <= |sb1|
  {
    seq(|sb1|, b requires 0 <= b < |sb1| => if InDex(p, b) then 0xFF else sb1[b])
  }

  /** The `fullPokedex` loop: byte i of the seen mask and byte i of the caught mask are set
      to 0xFF, for every i of the mask size. */
  method FillDex(p: Profile, sb1: array<byte>)
    requires DexEnd(p) <= sb1.Length
    modifies sb1
    ensures sb1[..] == DexFilled(p, old(sb1[..]))
  {
    ghost var s0 := sb1[..];
    var i := 0;
    while i < p.DexSize()
      invariant 0 <= i <= p.DexSize()
      invariant forall b :: 0 <= b < sb1.Length ==>
        sb1[b] == if p.DexSeenOffset() <= b < p.DexSeenOffset() + i || p.DexCaughtOffset() <= b < p.DexCaughtOffset() + i
                  then 0xFF else s0[b]
    {
      sb1[p.DexSeenOffset() + i] := 0xFF;
      sb1[p.DexCaughtOffset() + i] := 0xFF;
      i := i + 1;
    }
    assert sb1[..] == DexFilled(p, s0);
  }

  /** Every bit of 0xFF is set. */
  lemma AllBitsOfFull(j: nat)
    requires j < 8
    ensures BitSet(0xFF, j)
  {
    assert BitSet(1, 0);
    assert BitSet(3, 1);
    assert BitSet(7, 2);
    assert BitSet(15, 3);
    assert BitSet(31, 4);
    assert BitSet(63, 5);
    assert BitSet(127, 6);
  }

  /** After the `fullPokedex` tamper the pokedex reads back with every species of the masks
      caught. */
  lemma FullDexAllCaught(p: Profile, sb1: seq<byte>)
    requires DexEnd(p) <= |sb1|
    ensures var d := DexOf(p, DexFilled(p, sb1)).value;
      forall k :: 0 <= k < |d| ==> d[k] == if k < 8 * p.DexSize() then 2 else 0
  {
    var f := DexFilled(p, sb1);
    var caught := DexCaught(p, f);
    forall k | 0 <= k < 8 * p.DexSize()
      ensures Flag(caught, k)
    {
      assert caught[k / 8] == f[p.DexCaughtOffset() + k / 8] == 0xFF;
      AllBitsOfFull(k % 8);
    }
  }

  /** Copying a slice into a fresh `bytearray`. */
  method NewBuffer(s: seq<byte>) returns (a: array<byte>)
    ensures fresh(a) && a[..] == s
  {
    a := new byte[|s|](i requires 0 <= i < |s| => s[i]);
  }

  /** Writing both masks back puts them in place and leaves every other byte alone. */
  lemma MasksWritten(p: Profile, sb1: seq<byte>, seen: seq<byte>, caught: seq<byte>)
    requires DexEnd(p) <= |sb1| && |seen| == |caught| == p.DexSize()
    ensures var s := Splice(Splice(sb1, p.DexSeenOffset(), seen), p.DexCaughtOffset(), caught);
      && DexSeen(p, s) == seen && DexCaught(p, s) == caught
      && forall b :: 0 <= b < |sb1| && !InDex(p, b) ==> s[b] == sb1[b]
  {
    var s := Splice(Splice(sb1, p.DexSeenOffset(), seen), p.DexCaughtOffset(), caught);
    assert DexSeen(p, s) == seen;
    assert DexCaught(p, s) == caught;
  }

  /** SB1 after the 2.0 `pokedex` tamper: both masks replaced by their 2.0 encoding, every
      other byte as it was. */
  function DexEncoded(p: Profile, sb1: seq<byte>, pokedex: seq<int>, mons: seq<Mon>): (s: seq<byte>)
    requires DexEnd(p) <= |sb1|
    ensures |s| == |sb1|
  {
    var seen := EncodedSeen(DexSeen(p, sb1), pokedex, mons);
    var caught := EncodedCaught(DexCaught(p, sb1), pokedex, mons);
    Splice(Splice(sb1, p.DexSeenOffset(), seen), p.DexCaughtOffset(), caught)
  }

  /** The 2.0 `pokedex` tamper: the masks are copied out, encoded with the snapshot's records
      for the shinies, and written back. The encoding indexes the list at every species of
      1.3.2, so a shorter list raises. */
  method TamperDex(p: Profile, sb1: array<byte>, pokedex: seq<int>, mons: seq<Mon>) returns (r: Result<()>)
    requires p.V2? && DexEnd(p) <= sb1.Length
    modifies sb1
    ensures r.Ok? <==> |pokedex| >= SpeciesCountV1
    ensures r.Err? ==> r.error == IndexError
    ensures r.Ok? ==> sb1[..] == DexEncoded(p, old(sb1[..]), pokedex, mons)
  {
    var seen := NewBuffer(DexSeen(p, sb1[..]));
    var caught := NewBuffer(DexCaught(p, sb1[..]));
    ProfileMasksFit(p, pokedex, mons);
    r := DataToBitmask(pokedex, mons, seen, caught, p);
    if r.Err? {
      return;
    }
    Write(sb1, p.DexSeenOffset(), seen[..]);
    Write(sb1, p.DexCaughtOffset(), caught[..]);
  }

  // ---------------------------------------------------------------------------
  // The SB1 pass: money, bag and pokedex
  // ---------------------------------------------------------------------------

  /** The money and bag tampers pack every value they write: the amount of money in 32 bits
      and the id of every item the bag receives in 16. */
  predicate WritesFit(p: Profile, t: Tamper)
  {
    t.money < 0x1_0000_0000 && IdsFit(t.items, p.BagItemCapacity())
  }

  /** What makes the tamper writes to SB1 raise, in the order the pass meets them: an amount
      of money that does not fit 32 bits, an item id that does not fit 16 bits, and on a
      2.0 save a pokedex list shorter than the species of 1.3.2. */
  function TamperError(p: Profile, t: Tamper): (e: Option<Error>)
    ensures e.None? <==> WritesFit(p, t) && !(p.V2? && t.pokedex.Some? && |t.pokedex.value| < SpeciesCountV1)
  {
    if t.money >= 0x1_0000_0000 then Some(StructError)
    else if !IdsFit(t.items, p.BagItemCapacity()) then Some(StructError)
    else if p.V2? && t.pokedex.Some? && |t.pokedex.value| < SpeciesCountV1 then Some(IndexError)
    else None
  }

  /** SB1 after the money tamper. */
  function MoneyWritten(p: Profile, sb1: seq<byte>, key: u32, t: Tamper): (s: seq<byte>)
    requires DexEnd(p) <= |sb1| && WritesFit(p, t)
    ensures |s| == |sb1|
  {
    Sb1Layout(p);
    if t.money > 0 then Splice(sb1, p.MoneyOffset(), Pack32(Xor32(key, t.money))) else sb1
  }

  /** SB1 after the money tamper and the tampered bag loop. */
  function BagStage(p: Profile, sb1: seq<byte>, key: u32, t: Tamper): (s: seq<byte>)
    requires DexEnd(p) <= |sb1| && WritesFit(p, t)
    ensures |s| == |sb1|
  {
    BagWritten(MoneyWritten(p, sb1, key, t), p, key, t.items)
  }

  /** SB1 after the money, bag and `fullPokedex` tampers. */
  function Sb1Written(p: Profile, sb1: seq<byte>, key: u32, t: Tamper): (s: seq<byte>)
    requires DexEnd(p) <= |sb1| && WritesFit(p, t)
    ensures |s| == |sb1|
  {
    var s2 := BagStage(p, sb1, key, t);
    if t.fullPokedex then DexFilled(p, s2) else s2
  }

  /** What the SB1 pass yields: the money and items the snapshot reports, and SB1 as the
      pass leaves it. */
  datatype Sb1Out = Sb1Out(money: int, items: seq<Item>, sb1: seq<byte>)

  /** The SB1 pass with its tamper: without a tamper dictionary it reads the money and the
      bag and writes nothing; with one it reports a positive tamper amount or else the money
      SB1 holds, and the tamper items the bag receives, and leaves SB1 written by the money,
      bag and `fullPokedex` tampers and then, on a 2.0 save with a pokedex list, re-encoded. */
  function Sb1Final(p: Profile, sb1: seq<byte>, key: u32, tamper: Option<Tamper>, mons: seq<Mon>)
    : (r: Result<Sb1Out>)
    requires DexEnd(p) <= |sb1|
    ensures r.Ok? ==> |r.value.sb1| == |sb1|
  {
    Sb1Layout(p);
    if tamper.None? then Ok(Sb1Out(StoredMoney(p, sb1, key), BagRead(sb1, p, key), sb1))
    else
      var t := tamper.value;
      if TamperError(p, t).Some? then Err(TamperError(p, t).value)
      else
        var s := Sb1Written(p, sb1, key, t);
        var money := if t.money > 0 then t.money else StoredMoney(p, sb1, key);
        var final := if p.V2? && t.pokedex.Some? then DexEncoded(p, s, t.pokedex.value, mons) else s;
        Ok(Sb1Out(money, Injected(t.items, p.BagItemCapacity()), final))
  }

  /** The money tamper, the tampered bag loop and the `fullPokedex` loop, in that order. */
  method WriteSb1(p: Profile, sb1: array<byte>, key: u32, t: Tamper) returns (r: Result<()>, money: int, items: seq<Item>)
    requires DexEnd(p) <= sb1.Length
    modifies sb1
    ensures r.Ok? <==> WritesFit(p, t)
    ensures r.Err? ==> r.error == StructError
    ensures r.Ok? ==>
      && money == (if t.money > 0 then t.money else StoredMoney(p, old(sb1[..]), key))
      && items == Injected(t.items, p.BagItemCapacity())
      && sb1[..] == Sb1Written(p, old(sb1[..]), key, t)
  {
    Sb1Layout(p);
    money, items := StoredMoney(p, sb1[..], key), [];
    if t.money > 0 {
      r := WriteMoney(p, sb1, key, t.money);
      if r.Err? {
        return;
      }
      money := t.money;
    }
    var bag := WriteBag(p, sb1, key, t.items);
    if bag.Err? {
      return Err(bag.error), money, items;
    }
    items := bag.value;
    if t.fullPokedex {
      FillDex(p, sb1);
    }
    r := Ok(());
  }

  /** The part of `processObjects` that reads and writes SB1 after the boxes: the money
      tamper, the bag loop and the two pokedex tampers. `mons` are the snapshot's records,
      whose shinies the 2.0 pokedex encoding marks. */
  method Sb1Pass(p: Profile, sb1: array<byte>, key: u32, tamper: Option<Tamper>, mons: seq<Mon>)
    returns (r: Result<Sb1Out>)
    requires DexEnd(p) <= sb1.Length
    modifies sb1
    ensures r == Sb1Final(p, old(sb1[..]), key, tamper, mons)
    ensures r.Ok? ==> sb1[..] == r.value.sb1
  {
    Sb1Layout(p);
    if tamper.None? {
      var money := StoredMoney(p, sb1[..], key);
      var items := ReadBag(p, sb1[..], key);
      return Ok(Sb1Out(money, items, sb1[..]));
    }
    var t := tamper.value;
    var written, money, items := WriteSb1(p, sb1, key, t);
    if written.Err? {
      return Err(written.error);
    }
    if p.V2? && t.pokedex.Some? {
      var dex := TamperDex(p, sb1, t.pokedex.value, mons);
      if dex.Err? {
        return Err(dex.error);
      }
    }
    r := Ok(Sb1Out(money, items, sb1[..]));
  }

  // ---------------------------------------------------------------------------
  // processObjects
  // ---------------------------------------------------------------------------

  /** The three slot-1 region buffers the pass reads and writes. */
  function Sb1(p: Profile, m: SectorStore.Regions): (s: seq<byte>)
    requires SectorStore.WellFormed(p, m)
    ensures |s| == 4 * p.DataSize()
  {
    m[SectorStore.Slot1SaveBlock1].data
  }

  function Sb2(p: Profile, m: SectorStore.Regions): (s: seq<byte>)
    requires SectorStore.WellFormed(p, m)
    ensures |s| == 4 * p.DataSize()
  {
    m[SectorStore.Slot1SaveBlock2].data
  }

  function Storage(p: Profile, m: SectorStore.Regions): (s: seq<byte>)
    requires SectorStore.WellFormed(p, m)
    ensures |s| == 9 * p.DataSize()
  {
    m[SectorStore.Slot1PkmnStorage].data
  }

  /** The region buffers with new contents for SB1, SB2 and the box storage. */
  function Replaced(m: SectorStore.Regions, sb1: seq<byte>, sb2: seq<byte>, stor: seq<byte>): SectorStore.Regions
    requires SectorStore.Slot1SaveBlock1 in m && SectorStore.Slot1SaveBlock2 in m && SectorStore.Slot1PkmnStorage in m
  {
    m[SectorStore.Slot1SaveBlock1 := m[SectorStore.Slot1SaveBlock1].(data := sb1)]
     [SectorStore.Slot1SaveBlock2 := m[SectorStore.Slot1SaveBlock2].(data := sb2)]
     [SectorStore.Slot1PkmnStorage := m[SectorStore.Slot1PkmnStorage].(data := stor)]
  }

  /** Replacing the three buffers by buffers of their sizes keeps the regions well formed,
      and the new buffers are what the pass reads back. */
  lemma ReplacedWellFormed(p: Profile, m: SectorStore.Regions, sb1: seq<byte>, sb2: seq<byte>, stor: seq<byte>)
    requires SectorStore.WellFormed(p, m)
    requires |sb1| == |Sb1(p, m)| && |sb2| == |Sb2(p, m)| && |stor| == |Storage(p, m)|
    ensures SectorStore.WellFormed(p, Replaced(m, sb1, sb2, stor))
    ensures var o := Replaced(m, sb1, sb2, stor); Sb1(p, o) == sb1 && Sb2(p, o) == sb2 && Storage(p, o) == stor
  {
  }

  /** The records of the snapshot, as the pokedex encoding receives them. */
  function Mons(pkmns: seq<Entry>): (ms: seq<Mon>)
    ensures |ms| == |pkmns| && forall i :: 0 <= i < |pkmns| ==> ms[i] == pkmns[i].data
  {
    seq(|pkmns|, i requires 0 <= i < |pkmns| => pkmns[i].data)
  }

  /** What the pass knows once the boxes are done: the play time, the encryption key and
      the state of the box loop. */
  datatype Front = Front(clock: Clock, key: u32, scan: Scan)

  /** The pass up to the end of the box loop: `None` returned when the save declares the
      other format, or the first exception raised by the play time tamper, a party record,
      a box record or a clone of an empty party. */
  function FrontOf(p: Profile, m: SectorStore.Regions, tamper: Option<Tamper>): (r: Result<Front>)
    requires SectorStore.WellFormed(p, m) && PoolReady(tamper)
    ensures r.Ok? ==> |r.value.clock.sb2| == |Sb2(p, m)| && |r.value.scan.stor| == |Storage(p, m)|
  {
    ProfileLayout(p);
    var sb1, sb2, stor := Sb1(p, m), Sb2(p, m), Storage(p, m);
    if DetectVersion(sb1) != p then Err(VersionMismatch)
    else
      var clock :- PlayTime(sb2, tamper);
      var party :- Party(p, sb1);
      PartyReady(p, sb1);
      var scan :- Boxes(p, TrainerId(sb2), tamper, party, stor);
      Ok(Front(clock, EncryptionKey(p, sb2), scan))
  }

  /** What a successful pass returns: the snapshot, and the region buffers as the pass left
      them. */
  datatype Processed = Processed(snap: Snapshot, sectors: SectorStore.Regions)

  /** The pass after the box loop: the SB1 pass, then the pokedex read back from SB1 as
      the pass left it, and the trainer's name, whose decoding may raise. */
  function PassAfterBoxes(p: Profile, m: SectorStore.Regions, tamper: Option<Tamper>, f: Front): (r: Result<Processed>)
    requires SectorStore.WellFormed(p, m)
    requires |f.clock.sb2| == |Sb2(p, m)| && |f.scan.stor| == |Storage(p, m)|
    ensures r.Ok? ==> SectorStore.WellFormed(p, r.value.sectors) && |r.value.snap.pokedex| >= 8 * p.DexSize()
  {
    ProfileLayout(p);
    Sb1Layout(p);
    var s :- Sb1Final(p, Sb1(p, m), f.key, tamper, Mons(f.scan.pkmns));
    var trainer :- TrainerOf(Sb2(p, m));
    ReplacedWellFormed(p, m, s.sb1, f.clock.sb2, f.scan.stor);
    var snap := Snapshot(p, f.scan.pkmns, s.items, DexOf(p, s.sb1).value, trainer,
                         Stats(f.clock.hours, f.clock.minutes, s.money), f.key);
    Ok(Processed(snap, Replaced(m, s.sb1, f.clock.sb2, f.scan.stor)))
  }

  /** `processObjects` on the region buffers of profile p: the snapshot and the buffers it
      wrote, `VersionMismatch` for the `None` it returns when the save declares the other
      format, or the first exception it raises. */
  function Converted(p: Profile, m: SectorStore.Regions, tamper: Option<Tamper>): (r: Result<Processed>)
    requires SectorStore.WellFormed(p, m) && PoolReady(tamper)
    ensures r.Ok? ==> SectorStore.WellFormed(p, r.value.sectors) && |r.value.snap.pokedex| >= 8 * p.DexSize()
  {
    var f :- FrontOf(p, m, tamper);
    PassAfterBoxes(p, m, tamper, f)
  }

  /** The pass up to the end of the box loop, on a copy of the storage region. */
  method ReadFront(p: Profile, sectors: SectorStore.Regions, tamper: Option<Tamper>)
    returns (front: Result<Front>, stor: array<byte>)
    requires SectorStore.WellFormed(p, sectors) && PoolReady(tamper)
    ensures front == FrontOf(p, sectors, tamper)
    ensures fresh(stor) && (front.Ok? ==> stor[..] == front.value.scan.stor)
  {
    ProfileLayout(p);
    stor := new byte[0];
    var sb1, sb2 := Sb1(p, sectors), Sb2(p, sectors);
    if DetectVersion(sb1) != p {
      return Err(VersionMismatch), stor;
    }
    var clock := PlayTime(sb2, tamper);
    if clock.Err? {
      return Err(clock.error), stor;
    }
    var key, id := EncryptionKey(p, sb2), TrainerId(sb2);
    var party := ReadParty(p, sb1, PartyDecodes(p, sb1, sb1[PlayerPartyCountOffset]));
    if party.Err? {
      return Err(party.error), stor;
    }
    PartyReady(p, sb1);
    stor := NewBuffer(Storage(p, sectors));
    var boxes := ReadBoxes(p, id, tamper, stor, party.value);
    if boxes.Err? {
      return Err(boxes.error), stor;
    }
    front := Ok(Front(clock.value, key, Boxes(p, id, tamper, party.value, Storage(p, sectors)).value));
  }

  /** The pass after the box loop, on a copy of SB1. */
  method FinishPass(p: Profile, sectors: SectorStore.Regions, tamper: Option<Tamper>, f: Front, stor: array<byte>)
    returns (r: Result<Processed>)
    requires SectorStore.WellFormed(p, sectors)
    requires |f.clock.sb2| == |Sb2(p, sectors)| && stor[..] == f.scan.stor && |f.scan.stor| == |Storage(p, sectors)|
    ensures r == PassAfterBoxes(p, sectors, tamper, f)
  {
    ProfileLayout(p);
    Sb1Layout(p);
    var sb2 := Sb2(p, sectors);
    var sb1 := NewBuffer(Sb1(p, sectors));
    var pass := Sb1Pass(p, sb1, f.key, tamper, Mons(f.scan.pkmns));
    if pass.Err? {
      return Err(pass.error);
    }
    var pokedex := BitmaskToData(DexSeen(p, sb1[..]), DexCaught(p, sb1[..]), p);
    var name := DecodeString(sb2[..PlayerNameLength + 1]);
    if name.Err? {
      return Err(name.error);
    }
    var snap := Snapshot(p, f.scan.pkmns, pass.value.items, pokedex.value,
                         TrainerInfo(name.value, TrainerId(sb2), sb2[GenderOffset] % 2),
                         Stats(f.clock.hours, f.clock.minutes, pass.value.money), f.key);
    r := Ok(Processed(snap, Replaced(sectors, sb1[..], f.clock.sb2, stor[..])));
  }

  /** `processObjects`, specified by `Converted`. */
  method ProcessObjects(p: Profile, sectors: SectorStore.Regions, tamper: Option<Tamper>) returns (r: Result<Processed>)
    requires SectorStore.WellFormed(p, sectors) && PoolReady(tamper)
    ensures r == Converted(p, sectors, tamper)
  {
    var front, stor := ReadFront(p, sectors, tamper);
    if front.Err? {
      return Err(front.error);
    }
    r := FinishPass(p, sectors, tamper, front.value, stor);
  }

  // ---------------------------------------------------------------------------
  // What the pass reports, read back from the buffers it leaves
  // ---------------------------------------------------------------------------

  /** Two SB1 buffers that differ at most inside the pokedex masks. */
  ghost predicate SameOutsideDex(p: Profile, s: seq<byte>, s': seq<byte>)
  {
    |s| == |s'| && forall b :: 0 <= b < |s| && !InDex(p, b) ==> s[b] == s'[b]
  }

  /** The money word and the bag lie outside the masks: writing the masks changes neither
      what the money nor what the bag read as. */
  lemma OutsideDexReads(p: Profile, s: seq<byte>, s': seq<byte>, key: u32)
    requires DexEnd(p) <= |s| && SameOutsideDex(p, s, s')
    ensures StoredMoney(p, s, key) == StoredMoney(p, s', key)
    ensures BagRead(s, p, key) == BagRead(s', p, key)
  {
    var o := p.MoneyOffset();
    assert s[o] == s'[o] && s[o + 1] == s'[o + 1] && s[o + 2] == s'[o + 2] && s[o + 3] == s'[o + 3];
    BagUpToFrame(s, s', p, key, p.BagItemCapacity());
  }

  /** The money tamper and the bag loop leave both masks as they were. */
  lemma BagStageKeepsDex(p: Profile, sb1: seq<byte>, key: u32, t: Tamper)
    requires DexEnd(p) <= |sb1| && WritesFit(p, t)
    ensures DexSeen(p, BagStage(p, sb1, key, t)) == DexSeen(p, sb1)
    ensures DexCaught(p, BagStage(p, sb1, key, t)) == DexCaught(p, sb1)
  {
    var mw := MoneyWritten(p, sb1, key, t);
    var bag := BagStage(p, sb1, key, t);
    forall b | InDex(p, b)
      ensures bag[b] == sb1[b]
    {
      BagImageFrame(mw, p, key, t.items, p.BagItemCapacity(), b);
    }
    assert DexSeen(p, bag) == DexSeen(p, sb1);
    assert DexCaught(p, bag) == DexCaught(p, sb1);
  }

  /** After the bag loop the tampered pass writes only inside the masks. */
  lemma MasksAfterBag(p: Profile, sb1: seq<byte>, key: u32, t: Tamper, mons: seq<Mon>)
    requires DexEnd(p) <= |sb1| && TamperError(p, t).None?
    ensures Sb1Final(p, sb1, key, Some(t), mons).Ok?
    ensures SameOutsideDex(p, BagStage(p, sb1, key, t), Sb1Final(p, sb1, key, Some(t), mons).value.sb1)
  {
    var s := Sb1Written(p, sb1, key, t);
    if p.V2? && t.pokedex.Some? {
      var pokedex := t.pokedex.value;
      MasksWritten(p, s, EncodedSeen(DexSeen(p, s), pokedex, mons), EncodedCaught(DexCaught(p, s), pokedex, mons));
    }
  }

  /** The bag loop writes after the money word, so the money reads as before. */
  lemma BagKeepsMoney(p: Profile, s: seq<byte>, key: u32, items: seq<Item>)
    requires BagEnd(p) <= |s| && IdsFit(items, p.BagItemCapacity())
    ensures StoredMoney(p, BagWritten(s, p, key, items), key) == StoredMoney(p, s, key)
  {
    var o := p.MoneyOffset();
    BagImageFrame(s, p, key, items, p.BagItemCapacity(), o);
    BagImageFrame(s, p, key, items, p.BagItemCapacity(), o + 1);
    BagImageFrame(s, p, key, items, p.BagItemCapacity(), o + 2);
    BagImageFrame(s, p, key, items, p.BagItemCapacity(), o + 3);
  }

  /** The money the tampered SB1 pass reports is what SB1 reads back as. */
  lemma TamperedMoneyReadsBack(p: Profile, sb1: seq<byte>, key: u32, t: Tamper, mons: seq<Mon>)
    requires DexEnd(p) <= |sb1| && Sb1Final(p, sb1, key, Some(t), mons).Ok?
    ensures var s := Sb1Final(p, sb1, key, Some(t), mons).value; StoredMoney(p, s.sb1, key) == s.money
  {
    var s := Sb1Final(p, sb1, key, Some(t), mons).value;
    var mw := MoneyWritten(p, sb1, key, t);
    MasksAfterBag(p, sb1, key, t, mons);
    OutsideDexReads(p, BagStage(p, sb1, key, t), s.sb1, key);
    BagKeepsMoney(p, mw, key, t.items);
    if t.money > 0 {
      MoneyRoundTrip(p, sb1, key, t.money);
    }
  }

  /** The bag the tampered SB1 pass reports comes back, read from SB1 again, with the ids 0
      dropped and the quantities modulo 65536. */
  lemma TamperedBagReadsBack(p: Profile, sb1: seq<byte>, key: u32, t: Tamper, mons: seq<Mon>)
    requires DexEnd(p) <= |sb1| && Sb1Final(p, sb1, key, Some(t), mons).Ok?
    ensures var s := Sb1Final(p, sb1, key, Some(t), mons).value; BagRead(s.sb1, p, key) == Reread(s.items)
  {
    var s := Sb1Final(p, sb1, key, Some(t), mons).value;
    MasksAfterBag(p, sb1, key, t, mons);
    OutsideDexReads(p, BagStage(p, sb1, key, t), s.sb1, key);
    BagRoundTrip(MoneyWritten(p, sb1, key, t), p, key, t.items);
  }

  /** The pass's result on SB1, as `Converted` builds it. */
  lemma ConvertedSb1(p: Profile, m: SectorStore.Regions, tamper: Option<Tamper>)
    requires SectorStore.WellFormed(p, m) && PoolReady(tamper) && Converted(p, m, tamper).Ok?
    ensures var f := FrontOf(p, m, tamper).value; var o := Converted(p, m, tamper).value;
      && Sb1Final(p, Sb1(p, m), f.key, tamper, Mons(f.scan.pkmns)).Ok?
      && Sb1(p, o.sectors) == Sb1Final(p, Sb1(p, m), f.key, tamper, Mons(f.scan.pkmns)).value.sb1
      && o.snap.key == f.key && o.snap.pkmns == f.scan.pkmns
  {
    var f := FrontOf(p, m, tamper).value;
    var s := Sb1Final(p, Sb1(p, m), f.key, tamper, Mons(f.scan.pkmns)).value;
    ReplacedWellFormed(p, m, s.sb1, f.clock.sb2, f.scan.stor);
  }

  /** What the pass reports of money and the bag is what the SB1 it leaves reads back as,
      with the key it reports: the money exactly, and the bag exactly without a tamper
      dictionary, or otherwise with the ids 0 dropped and the quantities modulo 65536. */
  lemma ReportedReadsBack(p: Profile, m: SectorStore.Regions, tamper: Option<Tamper>)
    requires SectorStore.WellFormed(p, m) && PoolReady(tamper) && Converted(p, m, tamper).Ok?
    ensures var o := Converted(p, m, tamper).value; var sb1 := Sb1(p, o.sectors);
      && StoredMoney(p, sb1, o.snap.key) == o.snap.stats.money
      && BagRead(sb1, p, o.snap.key) == if tamper.Some? then Reread(o.snap.items) else o.snap.items
  {
    var f := FrontOf(p, m, tamper).value;
    ConvertedSb1(p, m, tamper);
    if tamper.Some? {
      TamperedMoneyReadsBack(p, Sb1(p, m), f.key, tamper.value, Mons(f.scan.pkmns));
      TamperedBagReadsBack(p, Sb1(p, m), f.key, tamper.value, Mons(f.scan.pkmns));
    }
  }

  /** Putting back the buffers the regions hold changes nothing. */
  lemma ReplacedSame(p: Profile, m: SectorStore.Regions)
    requires SectorStore.WellFormed(p, m)
    ensures Replaced(m, Sb1(p, m), Sb2(p, m), Storage(p, m)) == m
  {
    var s1, s2, st := SectorStore.Slot1SaveBlock1, SectorStore.Slot1SaveBlock2, SectorStore.Slot1PkmnStorage;
    assert m[s1].(data := m[s1].data) == m[s1];
    assert m[s2].(data := m[s2].data) == m[s2];
    assert m[st].(data := m[st].data) == m[st];
  }

  /** Without a tamper dictionary the pass up to the boxes writes nothing. */
  lemma UntamperedFront(p: Profile, m: SectorStore.Regions)
    requires SectorStore.WellFormed(p, m) && FrontOf(p, m, None).Ok?
    ensures FrontOf(p, m, None).value.clock.sb2 == Sb2(p, m)
    ensures FrontOf(p, m, None).value.scan.stor == Storage(p, m)
  {
    ProfileLayout(p);
    PartyReady(p, Sb1(p, m));
    UntamperedBoxes(p, TrainerId(Sb2(p, m)), Party(p, Sb1(p, m)).value, Storage(p, m));
  }

  /** Without a tamper dictionary the pass leaves every region buffer as it found it. */
  lemma UntamperedWritesNothing(p: Profile, m: SectorStore.Regions)
    requires SectorStore.WellFormed(p, m) && Converted(p, m, None).Ok?
    ensures Converted(p, m, None).value.sectors == m
  {
    UntamperedFront(p, m);
    ReplacedSame(p, m);
  }

  /** With `fullPokedex`, and on a 2.0 save no pokedex list, the pass reports every species
      of the masks as caught. */
  lemma FullDexReported(p: Profile, m: SectorStore.Regions, t: Tamper)
    requires SectorStore.WellFormed(p, m) && PoolReady(Some(t)) && Converted(p, m, Some(t)).Ok?
    requires t.fullPokedex && !(p.V2? && t.pokedex.Some?)
    ensures var d := Converted(p, m, Some(t)).value.snap.pokedex;
      forall k :: 0 <= k < |d| ==> d[k] == if k < 8 * p.DexSize() then 2 else 0
  {
    var f := FrontOf(p, m, Some(t)).value;
    FullDexAllCaught(p, BagStage(p, Sb1(p, m), f.key, t));
  }

  /** With a pokedex list on a 2.0 save, and no `fullPokedex`, the status the pass reports
      for species k is the one the list gives at index k - 1, when SB1 held no bit for k
      and no reported record is a shiny of k. */
  lemma ListedDexReported(p: Profile, m: SectorStore.Regions, t: Tamper, k: nat)
    requires SectorStore.WellFormed(p, m) && PoolReady(Some(t)) && Converted(p, m, Some(t)).Ok?
    requires p.V2? && t.pokedex.Some? && !t.fullPokedex
    requires 1 <= k <= SpeciesCountV1 && k < 8 * p.DexSize() && k <= |t.pokedex.value|
    requires 0 <= t.pokedex.value[k - 1] <= 2
    requires k >= 8 ==> !Flag(DexSeen(p, Sb1(p, m)), k) && !Flag(DexCaught(p, Sb1(p, m)), k)
    requires var ms := Mons(Converted(p, m, Some(t)).value.snap.pkmns); !MarkedShiny(ms, |ms|, k)
    ensures Converted(p, m, Some(t)).value.snap.pokedex[k] == t.pokedex.value[k - 1]
  {
    var f := FrontOf(p, m, Some(t)).value;
    var mons := Mons(f.scan.pkmns);
    var sb1 := Sb1(p, m);
    var s := Sb1Written(p, sb1, f.key, t);
    var pokedex := t.pokedex.value;
    var seen0, caught0 := DexSeen(p, s), DexCaught(p, s);
    var seen, caught := EncodedSeen(seen0, pokedex, mons), EncodedCaught(caught0, pokedex, mons);
    ConvertedSb1(p, m, Some(t));
    BagStageKeepsDex(p, sb1, f.key, t);
    MasksWritten(p, s, seen, caught);
    ListedComesBackShifted(seen0, caught0, pokedex, mons, seen, caught, k);
  }

  /** Once the version check passes, the pass up to the boxes fails only with an
      exception. */
  lemma FrontRaises(p: Profile, m: SectorStore.Regions, tamper: Option<Tamper>)
    requires SectorStore.WellFormed(p, m) && PoolReady(tamper) && DetectVersion(Sb1(p, m)) == p
    ensures FrontOf(p, m, tamper).Err? ==> FrontOf(p, m, tamper).error.Exception?
  {
    ProfileLayout(p);
    var sb1 := Sb1(p, m);
    PartyRaises(p, sb1);
    if Party(p, sb1).Ok? {
      PartyReady(p, sb1);
      BoxesRaise(p, TrainerId(Sb2(p, m)), tamper, Party(p, sb1).value, Storage(p, m));
    }
  }

  /** The pass after the boxes fails only with an exception. */
  lemma AfterBoxesRaises(p: Profile, m: SectorStore.Regions, tamper: Option<Tamper>, f: Front)
    requires SectorStore.WellFormed(p, m)
    requires |f.clock.sb2| == |Sb2(p, m)| && |f.scan.stor| == |Storage(p, m)|
    ensures PassAfterBoxes(p, m, tamper, f).Err? ==> PassAfterBoxes(p, m, tamper, f).error.Exception?
  {
  }

  /** `processObjects` returns `None` exactly when the save declares the other format:
      every other way it fails is an exception. */
  lemma MismatchIsVersion(p: Profile, m: SectorStore.Regions, tamper: Option<Tamper>)
    requires SectorStore.WellFormed(p, m) && PoolReady(tamper)
    ensures Converted(p, m, tamper) == Err(VersionMismatch) <==> DetectVersion(Sb1(p, m)) != p
  {
    ProfileLayout(p);
    if DetectVersion(Sb1(p, m)) == p {
      FrontRaises(p, m, tamper);
      if FrontOf(p, m, tamper).Ok? {
        AfterBoxesRaises(p, m, tamper, FrontOf(p, m, tamper).value);
      }
    }
  }

  // ---------------------------------------------------------------------------
  // processSavFile
  // ---------------------------------------------------------------------------

  /** The region buffers `processSavedSector` builds from a file image under the layout of
      profile p: the frames read, then merged in file order; a frame cut short raises. */
  function Loaded(p: Profile, image: seq<byte>): (r: Result<SectorStore.Regions>)
    ensures r.Ok? ==> SectorStore.WellFormed(p, r.value)
  {
    var ss :- SectorStore.ReadSectors(p, image);
    SectorStore.ReadFramesOk(p, image, SectorCount);
    Ok(SectorStore.Assemble(p, SectorStore.InitialRegions(p), ss))
  }

  /** `processSavedSector` on a file image. */
  method LoadRegions(p: Profile, image: seq<byte>) returns (r: Result<SectorStore.Regions>)
    ensures r == Loaded(p, image)
  {
    var ss := SectorStore.ReadSectors(p, image);
    if ss.Err? {
      return Err(ss.error);
    }
    SectorStore.ReadFramesOk(p, image, SectorCount);
    var parsed := SectorStore.ProcessSavedSector(p, ss.value);
    assert ss.value[..|ss.value|] == ss.value;
    r := Ok(parsed);
  }

  /** What `processSavFile` returns: the format it settled on, the region buffers of the
      last reading, and the snapshot, absent when neither format matched. */
  datatype SavFile = SavFile(profile: Profile, sectors: SectorStore.Regions, objs: Option<Snapshot>)

  /** `processSavFile`: the file read and processed under the 1.3.2 layout, and when that
      returns `None`, read and processed again under the 2.0 layout. Exceptions propagate. */
  function SavFileOf(image: seq<byte>, tamper: Option<Tamper>): Result<SavFile>
    requires PoolReady(tamper)
  {
    var m1 :- Loaded(V1, image);
    var o1 := Converted(V1, m1, tamper);
    if o1.Ok? then Ok(SavFile(V1, o1.value.sectors, Some(o1.value.snap)))
    else if o1.error != VersionMismatch then Err(o1.error)
    else
      var m2 :- Loaded(V2, image);
      var o2 := Converted(V2, m2, tamper);
      if o2.Ok? then Ok(SavFile(V2, o2.value.sectors, Some(o2.value.snap)))
      else if o2.error != VersionMismatch then Err(o2.error)
      else Ok(SavFile(V2, m2, None))
  }

  /** `processSavFile`, specified by `SavFileOf`. */
  method ProcessSavFile(image: seq<byte>, tamper: Option<Tamper>) returns (r: Result<SavFile>)
    requires PoolReady(tamper)
    ensures r == SavFileOf(image, tamper)
  {
    var m1 := LoadRegions(V1, image);
    if m1.Err? {
      return Err(m1.error);
    }
    var o1 := ProcessObjects(V1, m1.value, tamper);
    if o1.Ok? {
      return Ok(SavFile(V1, o1.value.sectors, Some(o1.value.snap)));
    } else if o1.error != VersionMismatch {
      return Err(o1.error);
    }
    var m2 := LoadRegions(V2, image);
    if m2.Err? {
      return Err(m2.error);
    }
    var o2 := ProcessObjects(V2, m2.value, tamper);
    if o2.Ok? {
      r := Ok(SavFile(V2, o2.value.sectors, Some(o2.value.snap)));
    } else if o2.error != VersionMismatch {
      r := Err(o2.error);
    } else {
      r := Ok(SavFile(V2, m2.value, None));
    }
  }

  /** `processSavFile` keeps the 1.3.2 reading exactly when that save declares 1.3.2, and
      then reports a snapshot; otherwise it reads the file under the 2.0 layout, and
      reports no snapshot exactly when that save does not declare 2.0 either. */
  lemma SavFileFormats(image: seq<byte>, tamper: Option<Tamper>)
    requires PoolReady(tamper) && SavFileOf(image, tamper).Ok?
    ensures Loaded(V1, image).Ok?
    ensures var r := SavFileOf(image, tamper).value;
      && (r.profile.V1? <==> DetectVersion(Sb1(V1, Loaded(V1, image).value)) == V1)
      && (r.profile.V1? ==> r.objs.Some?)
      && (r.profile.V2? ==> Loaded(V2, image).Ok?)
      && (r.profile.V2? ==> (r.objs.None? <==> DetectVersion(Sb1(V2, Loaded(V2, image).value)) != V2))
  {
    var m1 := Loaded(V1, image).value;
    MismatchIsVersion(V1, m1, tamper);
    if Converted(V1, m1, tamper) == Err(VersionMismatch) {
      MismatchIsVersion(V2, Loaded(V2, image).value, tamper);
    }
  }
}
