/** The snapshot pass of the converter (`processObjects`) and the version fallback around it
    (`processSavFile`). The pass reads the trainer, the play time, the party, the 300 box
    slots, the money, the bag and the pokedex out of the three slot-1 region buffers, and,
    when it is given a tamper dictionary, writes injected values into those buffers as it
    goes. */
module SaveTranscoder {
  import opened Bytes
  import opened Profiles
  import opened Outcomes
  import opened Text
  import opened MonCodec
  import opened MonLaws
  import opened Pokedex
  import opened ItemBag
  import SectorStore

  /** The tamper dictionary. The keys the Python code tests with `in` are optional; the ones
      it indexes directly are required. Its two counters and the clone flag the pass
      updates are local state of the pass here. */
  datatype Tamper = Tamper(
    money: int,
    items: seq<Item>,
    cloneFirstInParty: bool,
    pkmn: seq<Mon>,
    fullPokedex: bool,
    pokedex: Option<seq<int>>,
    hours: Option<int>,
    minutes: Option<int>)

  /** What `serializeMon` needs of the records it may inject. */
  predicate PoolReady(tamper: Option<Tamper>)
  {
    tamper.Some? ==> forall i :: 0 <= i < |tamper.value.pkmn| ==> tamper.value.pkmn[i].WellFormed()
  }

  /** A record of the snapshot with where it was found: box 0 is the party. */
  datatype Entry = Entry(data: Mon, box: nat, pos: nat)

  datatype TrainerInfo = TrainerInfo(name: string, id: u32, gender: nat)

  datatype Stats = Stats(hours: int, minutes: int, money: int)

  /** The dictionary `processObjects` returns. */
  datatype Snapshot = Snapshot(
    version: Profile,
    pkmns: seq<Entry>,
    items: seq<Item>,
    pokedex: seq<nat>,
    trainer: TrainerInfo,
    stats: Stats,
    key: u32)

  // ---------------------------------------------------------------------------
  // Version and trainer fields
  // ---------------------------------------------------------------------------

  /** The value of the save-version half-word of SB1 that marks a 1.3.2 save. */
  const SaveVersionV1: nat := 4

  /** The format a save declares: 1.3.2 when the half-word at 2498 of SB1 is 4. */
  function DetectVersion(sb1: seq<byte>): Profile
    requires RogueSaveVersionOffset + 2 <= |sb1|
  {
    if U16At(sb1, RogueSaveVersionOffset) == SaveVersionV1 then V1 else V2
  }

  /** Offsets of the SB2 fields the pass reads. */
  const GenderOffset: nat := PlayerNameLength + 1
  const TrainerIdOffset: nat := PlayerNameLength + 3
  const HoursOffset: nat := PlayerNameLength + 7
  const MinutesOffset: nat := PlayerNameLength + 9

  function TrainerId(sb2: seq<byte>): u32
    requires TrainerIdOffset + 4 <= |sb2|
  {
    U32At(sb2, TrainerIdOffset)
  }

  /** The encryption key of money and item quantities. */
  function EncryptionKey(p: Profile, sb2: seq<byte>): u32
    requires p.EncryptionKeyOffset() + 4 <= |sb2|
  {
    U32At(sb2, p.EncryptionKeyOffset())
  }

  /** The play time the pass reports, and SB2 after the tamper writes. */
  datatype Clock = Clock(hours: int, minutes: byte, sb2: seq<byte>)

  /** Reading the play time. A tamper `hours` is reported and stored in the hours half-word;
      `struct.pack` rejects one outside 0..65535. A tamper `minutes` is reported as the
      hours, and the minutes byte is written back unchanged. */
  function PlayTime(sb2: seq<byte>, tamper: Option<Tamper>): (r: Result<Clock>)
    requires MinutesOffset < |sb2|
    ensures r.Err? <==> tamper.Some? && tamper.value.hours.Some? && !(0 <= tamper.value.hours.value < 0x1_0000)
    ensures r.Err? ==> r.error == StructError
    ensures r.Ok? ==> |r.value.sb2| == |sb2| && r.value.minutes == r.value.sb2[MinutesOffset] == sb2[MinutesOffset]
    ensures r.Ok? ==>
      r.value.hours ==
        if tamper.Some? && tamper.value.minutes.Some? then tamper.value.minutes.value
        else if tamper.Some? && tamper.value.hours.Some? then tamper.value.hours.value
        else U16At(sb2, HoursOffset)
    ensures r.Ok? ==>
      U16At(r.value.sb2, HoursOffset) ==
        if tamper.Some? && tamper.value.hours.Some? then tamper.value.hours.value else U16At(sb2, HoursOffset)
    ensures r.Ok? ==> forall k :: 0 <= k < |sb2| && k != HoursOffset && k != HoursOffset + 1 ==> r.value.sb2[k] == sb2[k]
  {
    var stored := U16At(sb2, HoursOffset);
    var hoursWrite: Result<(int, seq<byte>)> :=
      if tamper.Some? && tamper.value.hours.Some? then
        var h := tamper.value.hours.value;
        if 0 <= h < 0x1_0000 then Ok((h, Splice(sb2, HoursOffset, Pack16(h)))) else Err(StructError)
      else Ok((stored, sb2));
    if hoursWrite.Err? then Err(hoursWrite.error)
    else
      var (hours, sb2') := hoursWrite.value;
      var minutes := sb2'[MinutesOffset];
      var hours' := if tamper.Some? && tamper.value.minutes.Some? then tamper.value.minutes.value else hours;
      Ok(Clock(hours', minutes, sb2'[MinutesOffset := minutes]))
  }

  /** The trainer as the snapshot reports it, or the error `decodeString` raises on the
      eight name bytes. */
  function TrainerOf(sb2: seq<byte>): (r: Result<TrainerInfo>)
    requires TrainerIdOffset + 4 <= |sb2|
    ensures r.Ok? <==> Decodable(sb2[..PlayerNameLength + 1])
    ensures r.Ok? ==> r.value.name == Strip(DecodeChars(sb2[..PlayerNameLength + 1]))
    ensures r.Ok? ==> r.value.id == TrainerId(sb2) && r.value.gender == sb2[GenderOffset] % 2 < 2
  {
    var name :- Decoding(sb2[..PlayerNameLength + 1]);
    Ok(TrainerInfo(name, TrainerId(sb2), sb2[GenderOffset] % 2))
  }

  // ---------------------------------------------------------------------------
  // The party
  // ---------------------------------------------------------------------------

  /** Where party record i starts in SB1. */
  function PartyStart(p: Profile, i: nat): nat
  {
    FirstPkmnOffset + i * p.PkmnStructSize()
  }

  /** The bytes the Python code hands to `createMon` for party slot i: it starts at record
      i but ends where the i+1-th 80-byte record would end. */
  function PartyWindowAsWritten(p: Profile, sb1: seq<byte>, i: nat): seq<byte>
  {
    PySlice(sb1, PartyStart(p, i), FirstPkmnOffset + (i + 1) * PkmnBoxStructSize)
  }

  /** Every party slot after the first gets fewer than 80 bytes, which `createMon` rejects:
      as written, a party of two or more cannot be read. */
  lemma AsWrittenPartyWindowFails(p: Profile, sb1: seq<byte>, i: nat)
    requires 1 <= i
    ensures |PartyWindowAsWritten(p, sb1, i)| < PkmnBoxStructSize
    ensures CreateMon(PartyWindowAsWritten(p, sb1, i), p).Err?
  {
    if p.V1? {
      assert PartyStart(p, i) == FirstPkmnOffset + i * 100;
    } else {
      assert PartyStart(p, i) == FirstPkmnOffset + i * 104;
    }
    CreateMonOutcome(PartyWindowAsWritten(p, sb1, i), p);
  }

  /** The bytes meant for party slot i: the 80 box-format bytes at the start of record i. */
  function PartyWindow(p: Profile, sb1: seq<byte>, i: nat): seq<byte>
  {
    PySlice(sb1, PartyStart(p, i), PartyStart(p, i) + PkmnBoxStructSize)
  }

  /** Inside the six-record party area the window is the whole 80-byte prefix of record i,
      it lies before the next record, and for the first slot it is what the code reads. */
  lemma PartyWindowIsRecord(p: Profile, sb1: seq<byte>, i: nat)
    requires i < PartySize && PartyStart(p, PartySize) <= |sb1|
    ensures PartyWindow(p, sb1, i) == sb1[PartyStart(p, i)..PartyStart(p, i) + PkmnBoxStructSize]
    ensures PartyStart(p, i) + PkmnBoxStructSize <= PartyStart(p, i + 1)
    ensures i == 0 ==> PartyWindowAsWritten(p, sb1, i) == PartyWindow(p, sb1, i)
  {
    if p.V1? {
      assert PartyStart(p, i) == FirstPkmnOffset + i * 100;
      assert PartyStart(p, i + 1) == FirstPkmnOffset + i * 100 + 100;
    } else {
      assert PartyStart(p, i) == FirstPkmnOffset + i * 104;
      assert PartyStart(p, i + 1) == FirstPkmnOffset + i * 104 + 104;
    }
  }

  /** rs holds what `createMon` makes of each of the first |rs| party windows. */
  ghost predicate PartyDecodedFrom(rs: seq<Result<Mon>>, p: Profile, sb1: seq<byte>)
  {
    forall i {:trigger CreateMon(PartyWindow(p, sb1, i), p)} :: 0 <= i < |rs| ==>
      rs[i] == CreateMon(PartyWindow(p, sb1, i), p)
  }

  /** What `createMon` makes of each of the first n party windows. */
  function PartyDecodes(p: Profile, sb1: seq<byte>, n: nat): (rs: seq<Result<Mon>>)
    ensures |rs| == n && PartyDecodedFrom(rs, p, sb1)
  {
    seq(n, i requires 0 <= i < n => CreateMon(PartyWindow(p, sb1, i), p))
  }

  /** The party entries of the decoded records `rs`, at box 0 and positions 1, 2, ..., or
      the first error among them. */
  function Collected(rs: seq<Result<Mon>>): (r: Result<seq<Entry>>)
    ensures r.Ok? ==> |r.value| == |rs|
  {
    if rs == [] then Ok([])
    else
      var front :- Collected(rs[..|rs| - 1]);
      var m :- rs[|rs| - 1];
      Ok(front + [Entry(m, 0, |rs|)])
  }

  /** The entries succeed exactly when every record does, and entry i holds record i. */
  lemma {:induction false} CollectedEntries(rs: seq<Result<Mon>>)
    ensures Collected(rs).Ok? <==> forall i :: 0 <= i < |rs| ==> rs[i].Ok?
    ensures Collected(rs).Ok? ==> forall i :: 0 <= i < |rs| ==> Collected(rs).value[i] == Entry(rs[i].value, 0, i + 1)
  {
    if rs != [] {
      var front := rs[..|rs| - 1];
      CollectedEntries(front);
      assert forall i :: 0 <= i < |front| ==> front[i] == rs[i];
      if Collected(rs).Ok? {
        assert Collected(rs).value == Collected(front).value + [Entry(rs[|rs| - 1].value, 0, |rs|)];
      }
    }
  }

  /** Once a record fails, the later ones do not change the error. */
  lemma {:induction false} CollectedErrPersists(rs: seq<Result<Mon>>, n: nat)
    requires n <= |rs| && Collected(rs[..n]).Err?
    ensures Collected(rs) == Collected(rs[..n])
    decreases |rs| - n
  {
    if n < |rs| {
      var rs' := rs[..|rs| - 1];
      assert rs'[..n] == rs[..n];
      CollectedErrPersists(rs', n);
    } else {
      assert rs[..n] == rs;
    }
  }

  /** The party of the snapshot: as many slots as the count byte says, or the first error
      `createMon` raises. */
  function Party(p: Profile, sb1: seq<byte>): Result<seq<Entry>>
    requires PlayerPartyCountOffset < |sb1|
  {
    Collected(PartyDecodes(p, sb1, sb1[PlayerPartyCountOffset]))
  }

  /** The party decodes when every window does, to slot i's record at box 0, position i+1. */
  lemma PartyEntries(p: Profile, sb1: seq<byte>)
    requires PlayerPartyCountOffset < |sb1|
    ensures var n := sb1[PlayerPartyCountOffset];
      Party(p, sb1).Ok? <==> forall i :: 0 <= i < n ==> CreateMon(PartyWindow(p, sb1, i), p).Ok?
    ensures var n := sb1[PlayerPartyCountOffset];
      Party(p, sb1).Ok? ==> |Party(p, sb1).value| == n && forall i :: 0 <= i < n ==>
        Party(p, sb1).value[i] == Entry(CreateMon(PartyWindow(p, sb1, i), p).value, 0, i + 1)
  {
    var rs := PartyDecodes(p, sb1, sb1[PlayerPartyCountOffset]);
    CollectedEntries(rs);
    forall i | 0 <= i < |rs|
      ensures rs[i] == CreateMon(PartyWindow(p, sb1, i), p)
    {
    }
  }

  /** Party slot i decoded, as `rs` records it. */
  method DecodePartySlot(p: Profile, sb1: seq<byte>, i: nat, ghost rs: seq<Result<Mon>>) returns (m: Result<Mon>)
    requires i < |rs| && PartyDecodedFrom(rs, p, sb1)
    ensures m == rs[i]
  {
    m := CreateMon(PartyWindow(p, sb1, i), p);
  }

  /** The party loop of `processObjects`, for the decodes `rs` of the party windows. */
  method ReadParty(p: Profile, sb1: seq<byte>, ghost rs: seq<Result<Mon>>) returns (r: Result<seq<Entry>>)
    requires PlayerPartyCountOffset < |sb1|
    requires |rs| == sb1[PlayerPartyCountOffset] && PartyDecodedFrom(rs, p, sb1)
    ensures r == Collected(rs)
  {
    var count := sb1[PlayerPartyCountOffset];
    var pkmns := [];
    var i := 0;
    assert rs[..0] == [];
    while i < count
      invariant 0 <= i <= count
      invariant Collected(rs[..i]) == Ok(pkmns)
    {
      var m := DecodePartySlot(p, sb1, i, rs);
      assert rs[..i + 1][..i] == rs[..i] && rs[..i + 1][i] == m;
      if m.Err? {
        CollectedErrPersists(rs, i + 1);
        return Err(m.error);
      }
      pkmns := pkmns + [Entry(m.value, 0, i + 1)];
      i := i + 1;
    }
    assert rs[..count] == rs;
    r := Ok(pkmns);
  }

  /** Every decoded party record has the shape `createMon` gives it. */
  lemma PartyReady(p: Profile, sb1: seq<byte>)
    requires PlayerPartyCountOffset < |sb1| && Party(p, sb1).Ok?
    ensures Ready(Party(p, sb1).value)
  {
    PartyEntries(p, sb1);
  }

  // ---------------------------------------------------------------------------
  // The boxes
  // ---------------------------------------------------------------------------

  const BoxSlots: nat := TotalBoxes * PkmnPerBox

  /** Where the box records end in the storage region. */
  const StorageEnd: nat := FirstPkmnInBoxOffset + BoxSlots * PkmnBoxStructSize

  /** Box slot k (box k / 30, position k % 30) starts here in the storage region. */
  function SlotOffset(k: nat): nat
  {
    FirstPkmnInBoxOffset + k * PkmnBoxStructSize
  }

  function SlotBytes(stor: seq<byte>, k: nat): (slot: seq<byte>)
    requires k < BoxSlots && StorageEnd <= |stor|
    ensures |slot| == PkmnBoxStructSize
  {
    stor[SlotOffset(k)..SlotOffset(k) + PkmnBoxStructSize]
  }

  /** A slot holds a record unless its owner id is 0 or 0xFFFFFFFF. */
  predicate Occupied(slot: seq<byte>)
    requires 8 <= |slot|
  {
    var otId := U32At(slot, 4);
    otId != 0 && otId != 0xFFFF_FFFF
  }

  predicate Ready(pkmns: seq<Entry>)
  {
    forall i :: 0 <= i < |pkmns| ==> pkmns[i].data.WellFormed()
  }

  /** The state the box loop carries: the records so far, the storage region, the tamper
      flag `cloneFirstinParty` and the tamper counter `lastInsertedPkmn`. */
  datatype Scan = Scan(pkmns: seq<Entry>, stor: seq<byte>, clone: bool, next: nat)

  /** Before the box loop: the party, the storage as read, and the counter reset to 0. */
  function InitialScan(party: seq<Entry>, stor: seq<byte>, tamper: Option<Tamper>): Scan
  {
    Scan(party, stor, tamper.Some? && tamper.value.cloneFirstInParty, 0)
  }

  /** Decoded records have the shape `createMon` gives them. */
  predicate DecodesReady(rs: seq<Result<Mon>>)
  {
    forall k :: 0 <= k < |rs| && rs[k].Ok? ==> rs[k].value.WellFormed()
  }

  /** rs holds what `createMon` makes of each box slot of storage region `stor`. */
  ghost predicate DecodedFrom(rs: seq<Result<Mon>>, p: Profile, stor: seq<byte>)
    requires StorageEnd <= |stor|
  {
    && |rs| == BoxSlots
    && forall k {:trigger CreateMon(SlotBytes(stor, k), p)} :: 0 <= k < BoxSlots ==>
         rs[k] == CreateMon(SlotBytes(stor, k), p)
  }

  /** What `createMon` makes of each box slot of a storage region. */
  function BoxDecodes(p: Profile, stor: seq<byte>): (rs: seq<Result<Mon>>)
    requires StorageEnd <= |stor|
    ensures |rs| == BoxSlots && DecodesReady(rs) && DecodedFrom(rs, p, stor)
  {
    seq(BoxSlots, k requires 0 <= k < BoxSlots => CreateMon(SlotBytes(stor, k), p))
  }

  /** A `serializeMon` call with the format and the new owner id fixed. */
  type Encoder = Mon --> (seq<byte>, Mon)

  /** An encoder takes every well-formed record to an 80-byte slot image and a well-formed
      record. */
  ghost predicate Encodes(enc: Encoder)
  {
    && (forall m: Mon {:trigger enc.requires(m)} :: m.WellFormed() ==> enc.requires(m))
    && (forall m: Mon {:trigger enc(m)} :: m.WellFormed() ==>
          |enc(m).0| == PkmnBoxStructSize && enc(m).1.WellFormed())
  }

  /** `enc` is `serializeMon` for format p and owner id `id`. */
  ghost predicate EncoderOf(enc: Encoder, p: Profile, id: u32)
  {
    forall m: Mon {:trigger Serialized(m, p, id)} :: m.WellFormed() ==> enc.requires(m) && enc(m) == Serialized(m, p, id)
  }

  /** `serializeMon` for format p and the save's trainer id. */
  function SerializerFor(p: Profile, id: u32): (enc: Encoder)
    ensures Encodes(enc) && EncoderOf(enc, p, id)
  {
    (m: Mon) requires m.WellFormed() => Serialized(m, p, id)
  }

  /** One turn of the box loop, for slot k whose record decodes to `decoded`. An occupied
      slot adds its record. An empty one, with a tamper dictionary, receives a copy of the
      first record of the snapshot (once, and only before any injection) or else the next
      tamper record; both are written with `serializeMon` for the save's trainer (`enc`),
      which also updates the record in place, so the snapshot holds the updated record. */
  function VisitSlot(tamper: Option<Tamper>, enc: Encoder, st: Scan, k: nat, decoded: Result<Mon>)
    : (r: Result<Scan>)
    requires k < BoxSlots && StorageEnd <= |st.stor| && Ready(st.pkmns) && PoolReady(tamper) && Encodes(enc)
    requires decoded.Ok? ==> decoded.value.WellFormed()
    ensures r.Ok? ==> |r.value.stor| == |st.stor| && Ready(r.value.pkmns)
  {
    var box, pos := k / PkmnPerBox + 1, k % PkmnPerBox + 1;
    if Occupied(SlotBytes(st.stor, k)) then
      var m :- decoded;
      Ok(st.(pkmns := st.pkmns + [Entry(m, box, pos)]))
    else if tamper.Some? && st.clone && st.next == 0 then
      if |st.pkmns| == 0 then Err(IndexError)
      else
        var (ba, m) := enc(st.pkmns[0].data);
        Ok(Scan(st.pkmns[0 := st.pkmns[0].(data := m)] + [Entry(m, box, pos)],
                Splice(st.stor, SlotOffset(k), ba), false, st.next))
    else if tamper.Some? && |tamper.value.pkmn| > st.next then
      var (ba, m) := enc(tamper.value.pkmn[st.next]);
      Ok(Scan(st.pkmns + [Entry(m, box, pos)], Splice(st.stor, SlotOffset(k), ba), st.clone, st.next + 1))
    else Ok(st)
  }

  /** The first n turns of the box loop. */
  function ScanSlots(tamper: Option<Tamper>, enc: Encoder, rs: seq<Result<Mon>>, st0: Scan, n: nat)
    : (r: Result<Scan>)
    requires n <= |rs| == BoxSlots && DecodesReady(rs) && StorageEnd <= |st0.stor| && Ready(st0.pkmns)
    requires PoolReady(tamper) && Encodes(enc)
    ensures r.Ok? ==> |r.value.stor| == |st0.stor| && Ready(r.value.pkmns)
  {
    if n == 0 then Ok(st0)
    else
      var st :- ScanSlots(tamper, enc, rs, st0, n - 1);
      VisitSlot(tamper, enc, st, n - 1, rs[n - 1])
  }

  /** The box loop over all 300 slots of a storage region, for format p and trainer id. */
  function Boxes(p: Profile, id: u32, tamper: Option<Tamper>, party: seq<Entry>, stor: seq<byte>)
    : (r: Result<Scan>)
    requires StorageEnd <= |stor| && Ready(party) && PoolReady(tamper)
    ensures r.Ok? ==> |r.value.stor| == |stor| && Ready(r.value.pkmns)
  {
    ScanSlots(tamper, SerializerFor(p, id), BoxDecodes(p, stor), InitialScan(party, stor, tamper), BoxSlots)
  }

  /** Once a turn fails, the later turns do not change the error. */
  lemma {:induction false} ScanErrPersists(tamper: Option<Tamper>, enc: Encoder, rs: seq<Result<Mon>>,
                                           st0: Scan, n: nat, n': nat)
    requires n <= n' <= |rs| == BoxSlots && DecodesReady(rs) && StorageEnd <= |st0.stor| && Ready(st0.pkmns)
    requires PoolReady(tamper) && Encodes(enc)
    requires ScanSlots(tamper, enc, rs, st0, n).Err?
    ensures ScanSlots(tamper, enc, rs, st0, n') == ScanSlots(tamper, enc, rs, st0, n)
    decreases n' - n
  {
    if n < n' {
      ScanErrPersists(tamper, enc, rs, st0, n, n' - 1);
    }
  }

  /** Every record among `rs` that failed to decode raised an exception. */
  predicate Raised(rs: seq<Result<Mon>>)
  {
    forall k :: 0 <= k < |rs| && rs[k].Err? ==> rs[k].error.Exception?
  }

  /** Collecting decoded records fails only with an exception one of them raised. */
  lemma {:induction false} CollectedRaises(rs: seq<Result<Mon>>)
    requires Raised(rs)
    ensures Collected(rs).Err? ==> Collected(rs).error.Exception?
  {
    if rs != [] {
      var front := rs[..|rs| - 1];
      assert forall k :: 0 <= k < |front| ==> front[k] == rs[k];
      CollectedRaises(front);
    }
  }

  /** The party loop fails only with an exception `createMon` raised. */
  lemma PartyRaises(p: Profile, sb1: seq<byte>)
    requires PlayerPartyCountOffset < |sb1|
    ensures Party(p, sb1).Err? ==> Party(p, sb1).error.Exception?
  {
    var rs := PartyDecodes(p, sb1, sb1[PlayerPartyCountOffset]);
    forall k | 0 <= k < |rs| && rs[k].Err?
      ensures rs[k].error.Exception?
    {
      CreateMonOutcome(PartyWindow(p, sb1, k), p);
    }
    CollectedRaises(rs);
  }

  /** The first n turns of the box loop fail only with an exception a slot's decoding
      raised, or with the index error of cloning from an empty party. */
  lemma {:induction false} ScanRaises(tamper: Option<Tamper>, enc: Encoder, rs: seq<Result<Mon>>, st0: Scan, n: nat)
    requires n <= |rs| == BoxSlots && DecodesReady(rs) && StorageEnd <= |st0.stor| && Ready(st0.pkmns)
    requires PoolReady(tamper) && Encodes(enc) && Raised(rs)
    ensures ScanSlots(tamper, enc, rs, st0, n).Err? ==> ScanSlots(tamper, enc, rs, st0, n).error.Exception?
  {
    if n > 0 {
      ScanRaises(tamper, enc, rs, st0, n - 1);
    }
  }

  /** The box loop fails only with an exception. */
  lemma BoxesRaise(p: Profile, id: u32, tamper: Option<Tamper>, party: seq<Entry>, stor: seq<byte>)
    requires StorageEnd <= |stor| && Ready(party) && PoolReady(tamper)
    ensures Boxes(p, id, tamper, party, stor).Err? ==> Boxes(p, id, tamper, party, stor).error.Exception?
  {
    var rs := BoxDecodes(p, stor);
    forall k | 0 <= k < |rs| && rs[k].Err?
      ensures rs[k].error.Exception?
    {
      CreateMonOutcome(SlotBytes(stor, k), p);
    }
    ScanRaises(tamper, SerializerFor(p, id), rs, InitialScan(party, stor, tamper), BoxSlots);
  }

  /** A slice that does not meet the assigned one is left as it was. */
  lemma SpliceElsewhere<T>(s: seq<T>, at: nat, t: seq<T>, lo: nat, hi: nat)
    requires at + |t| <= |s| && lo <= hi <= |s| && (hi <= at || at + |t| <= lo)
    ensures Splice(s, at, t)[lo..hi] == s[lo..hi]
  {
  }

  /** Writing a record into slot k leaves every other slot and the bytes around the slots
      alone. */
  lemma WriteSlotElsewhere(s: seq<byte>, k: nat, t: seq<byte>)
    requires k < BoxSlots && StorageEnd <= |s| && |t| == PkmnBoxStructSize
    ensures forall k' :: 0 <= k' < BoxSlots && k' != k ==>
      SlotBytes(Splice(s, SlotOffset(k), t), k') == SlotBytes(s, k')
    ensures Splice(s, SlotOffset(k), t)[..FirstPkmnInBoxOffset] == s[..FirstPkmnInBoxOffset]
    ensures Splice(s, SlotOffset(k), t)[StorageEnd..] == s[StorageEnd..]
  {
    forall k' | 0 <= k' < BoxSlots && k' != k
      ensures SlotBytes(Splice(s, SlotOffset(k), t), k') == SlotBytes(s, k')
    {
      SpliceElsewhere(s, SlotOffset(k), t, SlotOffset(k'), SlotOffset(k') + PkmnBoxStructSize);
    }
    SpliceElsewhere(s, SlotOffset(k), t, 0, FirstPkmnInBoxOffset);
    SpliceElsewhere(s, SlotOffset(k), t, StorageEnd, |s|);
  }

  /** What one turn keeps: a write, if any, goes to slot k and only when it was empty; the
      tamper counter and the record list only grow; without a tamper dictionary nothing is
      written. */
  lemma VisitKeeps(tamper: Option<Tamper>, enc: Encoder, st: Scan, k: nat, decoded: Result<Mon>)
    requires k < BoxSlots && StorageEnd <= |st.stor| && Ready(st.pkmns) && PoolReady(tamper) && Encodes(enc)
    requires decoded.Ok? ==> decoded.value.WellFormed()
    requires VisitSlot(tamper, enc, st, k, decoded).Ok?
    ensures var st' := VisitSlot(tamper, enc, st, k, decoded).value;
      && (forall k' :: 0 <= k' < BoxSlots && k' != k ==> SlotBytes(st'.stor, k') == SlotBytes(st.stor, k'))
      && (Occupied(SlotBytes(st.stor, k)) ==> st'.stor == st.stor)
      && st'.stor[..FirstPkmnInBoxOffset] == st.stor[..FirstPkmnInBoxOffset]
      && st'.stor[StorageEnd..] == st.stor[StorageEnd..]
      && st.next <= st'.next && |st.pkmns| <= |st'.pkmns|
      && (tamper.None? ==> st'.stor == st.stor && st'.clone == st.clone && st'.next == st.next)
  {
    var st' := VisitSlot(tamper, enc, st, k, decoded).value;
    if st'.stor != st.stor {
      var src := if st.clone && st.next == 0 then st.pkmns[0].data else tamper.value.pkmn[st.next];
      WriteSlotElsewhere(st.stor, k, enc(src).0);
    }
  }

  /** What state st keeps of st0 after the first n turns: slots not yet visited and slots
      that held a record are as they were, so are the bytes around the slots, and the tamper
      counter and the record list only grow. Without a tamper dictionary nothing is written
      at all. */
  ghost predicate KeptFrom(tamper: Option<Tamper>, st0: Scan, st: Scan, n: nat)
  {
    && StorageEnd <= |st0.stor| && StorageEnd <= |st.stor|
    && (forall k :: n <= k < BoxSlots ==> SlotBytes(st.stor, k) == SlotBytes(st0.stor, k))
    && (forall k :: 0 <= k < BoxSlots && Occupied(SlotBytes(st0.stor, k)) ==>
          SlotBytes(st.stor, k) == SlotBytes(st0.stor, k))
    && st.stor[..FirstPkmnInBoxOffset] == st0.stor[..FirstPkmnInBoxOffset]
    && st.stor[StorageEnd..] == st0.stor[StorageEnd..]
    && st0.next <= st.next && |st0.pkmns| <= |st.pkmns|
    && (tamper.None? ==> st.stor == st0.stor && st.clone == st0.clone && st.next == st0.next)
  }

  /** One more turn keeps what the turns before it kept. */
  lemma KeptStep(tamper: Option<Tamper>, enc: Encoder, st0: Scan, st: Scan, n: nat, decoded: Result<Mon>)
    requires n < BoxSlots && StorageEnd <= |st.stor| && Ready(st.pkmns) && PoolReady(tamper) && Encodes(enc)
    requires decoded.Ok? ==> decoded.value.WellFormed()
    requires KeptFrom(tamper, st0, st, n) && VisitSlot(tamper, enc, st, n, decoded).Ok?
    ensures KeptFrom(tamper, st0, VisitSlot(tamper, enc, st, n, decoded).value, n + 1)
  {
    VisitKeeps(tamper, enc, st, n, decoded);
  }

  /** What the first n turns keep (see KeptFrom). */
  lemma {:induction false} ScanKeeps(tamper: Option<Tamper>, enc: Encoder, rs: seq<Result<Mon>>,
                                     st0: Scan, n: nat)
    requires n <= |rs| == BoxSlots && DecodesReady(rs) && StorageEnd <= |st0.stor| && Ready(st0.pkmns)
    requires PoolReady(tamper) && Encodes(enc)
    requires ScanSlots(tamper, enc, rs, st0, n).Ok?
    ensures KeptFrom(tamper, st0, ScanSlots(tamper, enc, rs, st0, n).value, n)
  {
    if n > 0 {
      ScanUnfold(tamper, enc, rs, st0, n);
      ScanKeeps(tamper, enc, rs, st0, n - 1);
      var st := ScanSlots(tamper, enc, rs, st0, n - 1).value;
      KeptStep(tamper, enc, st0, st, n - 1, rs[n - 1]);
    }
  }

  /** A scan of n > 0 turns that succeeds is a successful scan of n - 1 turns and one more
      turn. */
  lemma ScanUnfold(tamper: Option<Tamper>, enc: Encoder, rs: seq<Result<Mon>>, st0: Scan, n: nat)
    requires 0 < n <= |rs| == BoxSlots && DecodesReady(rs) && StorageEnd <= |st0.stor| && Ready(st0.pkmns)
    requires PoolReady(tamper) && Encodes(enc)
    requires ScanSlots(tamper, enc, rs, st0, n).Ok?
    ensures ScanSlots(tamper, enc, rs, st0, n - 1).Ok?
    ensures ScanSlots(tamper, enc, rs, st0, n)
      == VisitSlot(tamper, enc, ScanSlots(tamper, enc, rs, st0, n - 1).value, n - 1, rs[n - 1])
  {
  }

  /** Reads box slot k: whether it holds a record and, if it does, that record decoded. */
  method ReadSlot(p: Profile, stor: array<byte>, k: nat, ghost rs: seq<Result<Mon>>, ghost stor0: seq<byte>)
    returns (occupied: bool, m: Result<Mon>)
    requires k < BoxSlots && StorageEnd <= stor.Length && StorageEnd <= |stor0|
    requires DecodedFrom(rs, p, stor0) && SlotBytes(stor[..], k) == SlotBytes(stor0, k)
    ensures occupied == Occupied(SlotBytes(stor[..], k))
    ensures occupied ==> m == rs[k]
  {
    var slot := stor[SlotOffset(k)..SlotOffset(k) + PkmnBoxStructSize];
    assert slot == SlotBytes(stor[..], k);
    occupied := U32At(slot, 4) != 0 && U32At(slot, 4) != 0xFFFF_FFFF;
    m := Err(StructError);
    if occupied {
      m := CreateMon(slot, p);
    }
  }

  /** An empty slot k that receives a copy of the first record of the snapshot. */
  method CloneTurn(p: Profile, id: u32, tamper: Option<Tamper>, stor: array<byte>, pkmns: seq<Entry>,
                   k: nat, box: nat, pos: nat, ghost decoded: Result<Mon>, ghost enc: Encoder)
    returns (pkmns': seq<Entry>)
    requires Encodes(enc) && EncoderOf(enc, p, id)
    requires k < BoxSlots && box == k / PkmnPerBox + 1 && pos == k % PkmnPerBox + 1
    requires StorageEnd <= stor.Length && Ready(pkmns) && PoolReady(tamper)
    requires decoded.Ok? ==> decoded.value.WellFormed()
    requires !Occupied(SlotBytes(stor[..], k)) && tamper.Some? && |pkmns| > 0
    modifies stor
    ensures VisitSlot(tamper, enc, Scan(pkmns, old(stor[..]), true, 0), k, decoded)
      == Ok(Scan(pkmns', stor[..], false, 0))
  {
    var ba, m := SerializeMon(pkmns[0].data, p, id);
    pkmns' := pkmns[0 := pkmns[0].(data := m)] + [Entry(m, box, pos)];
    ghost var s := stor[..];
    Write(stor, SlotOffset(k), ba);
    VisitClones(tamper, enc, Scan(pkmns, s, true, 0), k, decoded, ba, m);
  }

  /** An empty slot k that receives the next tamper record. */
  method InjectTurn(p: Profile, id: u32, tamper: Option<Tamper>, stor: array<byte>, pkmns: seq<Entry>,
                    clone: bool, next: nat, k: nat, box: nat, pos: nat, ghost decoded: Result<Mon>,
                    ghost enc: Encoder)
    returns (pkmns': seq<Entry>)
    requires Encodes(enc) && EncoderOf(enc, p, id)
    requires k < BoxSlots && box == k / PkmnPerBox + 1 && pos == k % PkmnPerBox + 1
    requires StorageEnd <= stor.Length && Ready(pkmns) && PoolReady(tamper)
    requires decoded.Ok? ==> decoded.value.WellFormed()
    requires !Occupied(SlotBytes(stor[..], k)) && tamper.Some? && !(clone && next == 0)
    requires |tamper.value.pkmn| > next
    modifies stor
    ensures VisitSlot(tamper, enc, Scan(pkmns, old(stor[..]), clone, next), k, decoded)
      == Ok(Scan(pkmns', stor[..], clone, next + 1))
  {
    var src := tamper.value.pkmn[next];
    var ba, m := SerializeMon(src, p, id);
    pkmns' := pkmns + [Entry(m, box, pos)];
    ghost var st := Scan(pkmns, stor[..], clone, next);
    Write(stor, SlotOffset(k), ba);
    VisitInjects(tamper, enc, st, k, decoded, ba, m);
    assert Ok(Scan(pkmns', stor[..], clone, next + 1)) == VisitSlot(tamper, enc, st, k, decoded);
  }

  /** The turn for an empty slot k while the first record is still to be cloned, with that
      record encoded as `(ba, m)`. */
  lemma VisitClones(tamper: Option<Tamper>, enc: Encoder, st: Scan, k: nat, decoded: Result<Mon>,
                    ba: seq<byte>, m: Mon)
    requires k < BoxSlots && StorageEnd <= |st.stor| && Ready(st.pkmns) && PoolReady(tamper) && Encodes(enc)
    requires decoded.Ok? ==> decoded.value.WellFormed()
    requires !Occupied(SlotBytes(st.stor, k)) && tamper.Some? && st.clone && st.next == 0 && |st.pkmns| > 0
    requires enc.requires(st.pkmns[0].data) && enc(st.pkmns[0].data) == (ba, m)
    ensures VisitSlot(tamper, enc, st, k, decoded)
      == Ok(Scan(st.pkmns[0 := st.pkmns[0].(data := m)] + [Entry(m, k / PkmnPerBox + 1, k % PkmnPerBox + 1)],
                 Splice(st.stor, SlotOffset(k), ba), false, st.next))
  {
  }

  /** The turn for an empty slot k that receives tamper record `st.next`, encoded as
      `(ba, m)`. */
  lemma VisitInjects(tamper: Option<Tamper>, enc: Encoder, st: Scan, k: nat, decoded: Result<Mon>,
                     ba: seq<byte>, m: Mon)
    requires k < BoxSlots && StorageEnd <= |st.stor| && Ready(st.pkmns) && PoolReady(tamper) && Encodes(enc)
    requires decoded.Ok? ==> decoded.value.WellFormed()
    requires !Occupied(SlotBytes(st.stor, k)) && tamper.Some? && !(st.clone && st.next == 0)
    requires |tamper.value.pkmn| > st.next
    requires enc.requires(tamper.value.pkmn[st.next]) && enc(tamper.value.pkmn[st.next]) == (ba, m)
    ensures VisitSlot(tamper, enc, st, k, decoded)
      == Ok(Scan(st.pkmns + [Entry(m, k / PkmnPerBox + 1, k % PkmnPerBox + 1)],
                 Splice(st.stor, SlotOffset(k), ba), st.clone, st.next + 1))
  {
  }

  /** One turn of the box loop on the storage buffer, for slot k (box `box`, position
      `pos`), given what `ReadSlot` found in the slot. */
  method VisitBoxSlot(p: Profile, id: u32, tamper: Option<Tamper>, stor: array<byte>, pkmns: seq<Entry>,
                      clone: bool, next: nat, k: nat, box: nat, pos: nat, occupied: bool, m: Result<Mon>,
                      ghost decoded: Result<Mon>, ghost enc: Encoder)
    returns (r: Result<()>, pkmns': seq<Entry>, clone': bool, next': nat)
    requires Encodes(enc) && EncoderOf(enc, p, id)
    requires k < BoxSlots && box == k / PkmnPerBox + 1 && pos == k % PkmnPerBox + 1
    requires StorageEnd <= stor.Length && Ready(pkmns) && PoolReady(tamper)
    requires decoded.Ok? ==> decoded.value.WellFormed()
    requires occupied == Occupied(SlotBytes(stor[..], k))
    requires occupied ==> m == decoded
    modifies stor
    ensures VisitSlot(tamper, enc, Scan(pkmns, old(stor[..]), clone, next), k, decoded)
      == if r.Ok? then Ok(Scan(pkmns', stor[..], clone', next')) else Err(r.error)
  {
    pkmns', clone', next' := pkmns, clone, next;
    r := Ok(());
    if occupied {
      if m.Err? {
        return Err(m.error), pkmns', clone', next';
      }
      pkmns' := pkmns + [Entry(m.value, box, pos)];
    } else if tamper.Some? && clone && next == 0 {
      if |pkmns| == 0 {
        return Err(IndexError), pkmns', clone', next';
      }
      pkmns' := CloneTurn(p, id, tamper, stor, pkmns, k, box, pos, decoded, enc);
      clone' := false;
    } else if tamper.Some? && |tamper.value.pkmn| > next {
      pkmns' := InjectTurn(p, id, tamper, stor, pkmns, clone, next, k, box, pos, decoded, enc);
      next' := next + 1;
    }
  }

  /** `steps` lists the states of the box loop after each of its 0 .. 300 turns. */
  ghost predicate TraceOf(steps: seq<Result<Scan>>, tamper: Option<Tamper>, enc: Encoder,
                          rs: seq<Result<Mon>>, st0: Scan)
  {
    && |rs| == BoxSlots && DecodesReady(rs) && StorageEnd <= |st0.stor| && Ready(st0.pkmns)
    && PoolReady(tamper) && Encodes(enc) && |steps| == BoxSlots + 1
    && forall n {:trigger ScanSlots(tamper, enc, rs, st0, n)} :: 0 <= n <= BoxSlots ==>
         steps[n] == ScanSlots(tamper, enc, rs, st0, n)
  }

  /** The states of the box loop after each of its turns. */
  function Trace(tamper: Option<Tamper>, enc: Encoder, rs: seq<Result<Mon>>, st0: Scan)
    : (steps: seq<Result<Scan>>)
    requires |rs| == BoxSlots && DecodesReady(rs) && StorageEnd <= |st0.stor| && Ready(st0.pkmns)
    requires PoolReady(tamper) && Encodes(enc)
    ensures TraceOf(steps, tamper, enc, rs, st0)
  {
    seq(BoxSlots + 1, n requires 0 <= n <= BoxSlots => ScanSlots(tamper, enc, rs, st0, n))
  }

  /** Turn k = 30 i + j of the box loop: reads slot k and visits it, carrying the state of
      the first k turns to the state of the first k + 1. */
  method BoxTurn(p: Profile, id: u32, tamper: Option<Tamper>, stor: array<byte>, pkmns: seq<Entry>,
                 clone: bool, next: nat, i: nat, j: nat,
                 ghost enc: Encoder, ghost rs: seq<Result<Mon>>, ghost st0: Scan, ghost steps: seq<Result<Scan>>)
    returns (r: Result<()>, pkmns': seq<Entry>, clone': bool, next': nat)
    requires i < TotalBoxes && j < PkmnPerBox
    requires TraceOf(steps, tamper, enc, rs, st0) && EncoderOf(enc, p, id) && DecodedFrom(rs, p, st0.stor)
    requires steps[i * PkmnPerBox + j] == Ok(Scan(pkmns, stor[..], clone, next))
    modifies stor
    ensures r.Ok? ==> steps[i * PkmnPerBox + j + 1] == Ok(Scan(pkmns', stor[..], clone', next'))
    ensures r.Err? ==> steps[BoxSlots] == Err(r.error)
  {
    var k := i * PkmnPerBox + j;
    ghost var st := Scan(pkmns, stor[..], clone, next);
    TraceStep(tamper, enc, rs, st0, steps, k, st);
    var occupied, m := ReadSlot(p, stor, k, rs, st0.stor);
    DivModUnique(k, PkmnPerBox, i, j);
    r, pkmns', clone', next' := VisitBoxSlot(p, id, tamper, stor, pkmns, clone, next, k, i + 1, j + 1, occupied, m, rs[k], enc);
  }

  /** The first k turns leave slot k as it was. */
  lemma ScanLeavesSlot(tamper: Option<Tamper>, enc: Encoder, rs: seq<Result<Mon>>, st0: Scan, k: nat, st: Scan)
    requires k < |rs| == BoxSlots && DecodesReady(rs) && StorageEnd <= |st0.stor| && Ready(st0.pkmns)
    requires PoolReady(tamper) && Encodes(enc)
    requires ScanSlots(tamper, enc, rs, st0, k) == Ok(st)
    ensures SlotBytes(st.stor, k) == SlotBytes(st0.stor, k)
  {
    ScanKeeps(tamper, enc, rs, st0, k);
  }

  /** After k turns in state st, turn k + 1 is the turn for slot k. */
  lemma ScanStep(tamper: Option<Tamper>, enc: Encoder, rs: seq<Result<Mon>>, st0: Scan, k: nat, st: Scan)
    requires k < |rs| == BoxSlots && DecodesReady(rs) && StorageEnd <= |st0.stor| && Ready(st0.pkmns)
    requires PoolReady(tamper) && Encodes(enc)
    requires ScanSlots(tamper, enc, rs, st0, k) == Ok(st)
    ensures StorageEnd <= |st.stor| && Ready(st.pkmns) && (rs[k].Ok? ==> rs[k].value.WellFormed())
    ensures ScanSlots(tamper, enc, rs, st0, k + 1) == VisitSlot(tamper, enc, st, k, rs[k])
  {
  }

  /** Step k of a trace: the state after k turns leaves slot k as it was in the region, and
      the next step is the turn for slot k; an error there is the loop's result. */
  lemma TraceStep(tamper: Option<Tamper>, enc: Encoder, rs: seq<Result<Mon>>, st0: Scan,
                  steps: seq<Result<Scan>>, k: nat, st: Scan)
    requires TraceOf(steps, tamper, enc, rs, st0) && k < BoxSlots && steps[k] == Ok(st)
    ensures StorageEnd <= |st.stor| && Ready(st.pkmns) && (rs[k].Ok? ==> rs[k].value.WellFormed())
    ensures SlotBytes(st.stor, k) == SlotBytes(st0.stor, k)
    ensures steps[k + 1] == VisitSlot(tamper, enc, st, k, rs[k])
    ensures steps[k + 1].Err? ==> steps[BoxSlots] == steps[k + 1]
  {
    assert steps[k] == ScanSlots(tamper, enc, rs, st0, k);
    ScanLeavesSlot(tamper, enc, rs, st0, k, st);
    ScanStep(tamper, enc, rs, st0, k, st);
    assert steps[k + 1] == ScanSlots(tamper, enc, rs, st0, k + 1);
    if steps[k + 1].Err? {
      ScanErrPersists(tamper, enc, rs, st0, k + 1, BoxSlots);
      assert steps[BoxSlots] == ScanSlots(tamper, enc, rs, st0, BoxSlots);
    }
  }

  /** The inner loop of the box loop: the 30 positions of box i. */
  method ScanBox(p: Profile, id: u32, tamper: Option<Tamper>, stor: array<byte>, pkmns: seq<Entry>,
                 clone: bool, next: nat, i: nat,
                 ghost enc: Encoder, ghost rs: seq<Result<Mon>>, ghost st0: Scan, ghost steps: seq<Result<Scan>>)
    returns (r: Result<()>, pkmns': seq<Entry>, clone': bool, next': nat)
    requires i < TotalBoxes
    requires TraceOf(steps, tamper, enc, rs, st0) && EncoderOf(enc, p, id) && DecodedFrom(rs, p, st0.stor)
    requires steps[i * PkmnPerBox] == Ok(Scan(pkmns, stor[..], clone, next))
    modifies stor
    ensures r.Ok? ==> steps[(i + 1) * PkmnPerBox] == Ok(Scan(pkmns', stor[..], clone', next'))
    ensures r.Err? ==> steps[BoxSlots] == Err(r.error)
  {
    pkmns', clone', next' := pkmns, clone, next;
    var j := 0;
    while j < PkmnPerBox
      invariant 0 <= j <= PkmnPerBox
      invariant steps[i * PkmnPerBox + j] == Ok(Scan(pkmns', stor[..], clone', next'))
    {
      r, pkmns', clone', next' := BoxTurn(p, id, tamper, stor, pkmns', clone', next', i, j, enc, rs, st0, steps);
      if r.Err? {
        return;
      }
      j := j + 1;
    }
    r := Ok(());
  }

  /** The box loop of `processObjects` on the storage buffer, for the encoder `enc` of the
      save's trainer, the decodes `rs` of the storage region as read and the states `steps`
      of the box loop from there. */
  method ScanBoxes(p: Profile, id: u32, tamper: Option<Tamper>, stor: array<byte>, party: seq<Entry>,
                   ghost enc: Encoder, ghost rs: seq<Result<Mon>>, ghost steps: seq<Result<Scan>>)
    returns (r: Result<seq<Entry>>)
    requires StorageEnd <= stor.Length
    requires TraceOf(steps, tamper, enc, rs, InitialScan(party, stor[..], tamper))
    requires EncoderOf(enc, p, id) && DecodedFrom(rs, p, stor[..])
    modifies stor
    ensures (r.Ok? <==> steps[BoxSlots].Ok?) && (r.Err? ==> r.error == steps[BoxSlots].error)
    ensures r.Ok? ==> r.value == steps[BoxSlots].value.pkmns && stor[..] == steps[BoxSlots].value.stor
  {
    ghost var st0 := InitialScan(party, stor[..], tamper);
    var pkmns := party;
    var clone := tamper.Some? && tamper.value.cloneFirstInParty;
    var next := 0;
    var i := 0;
    assert steps[0] == ScanSlots(tamper, enc, rs, st0, 0);
    while i < TotalBoxes
      invariant 0 <= i <= TotalBoxes
      invariant steps[i * PkmnPerBox] == Ok(Scan(pkmns, stor[..], clone, next))
    {
      var res;
      res, pkmns, clone, next := ScanBox(p, id, tamper, stor, pkmns, clone, next, i, enc, rs, st0, steps);
      if res.Err? {
        return Err(res.error);
      }
      i := i + 1;
    }
    r := Ok(pkmns);
  }

  /** The box loop of `processObjects` for format p and trainer id `id`. */
  method ReadBoxes(p: Profile, id: u32, tamper: Option<Tamper>, stor: array<byte>, party: seq<Entry>)
    returns (r: Result<seq<Entry>>)
    requires StorageEnd <= stor.Length && Ready(party) && PoolReady(tamper)
    modifies stor
    ensures var b := Boxes(p, id, tamper, party, old(stor[..]));
      && (r.Ok? <==> b.Ok?) && (r.Err? ==> r.error == b.error)
      && (r.Ok? ==> r.value == b.value.pkmns && stor[..] == b.value.stor)
  {
    ghost var enc := SerializerFor(p, id);
    ghost var rs := BoxDecodes(p, stor[..]);
    ghost var steps := Trace(tamper, enc, rs, InitialScan(party, stor[..], tamper));
    r := ScanBoxes(p, id, tamper, stor, party, enc, rs, steps);
  }

  /** Without a tamper dictionary the box loop writes nothing. */
  lemma {:induction false} UntamperedScanKeeps(enc: Encoder, rs: seq<Result<Mon>>, st0: Scan, n: nat)
    requires n <= |rs| == BoxSlots && DecodesReady(rs) && StorageEnd <= |st0.stor| && Ready(st0.pkmns)
    requires Encodes(enc) && ScanSlots(None, enc, rs, st0, n).Ok?
    ensures ScanSlots(None, enc, rs, st0, n).value.stor == st0.stor
  {
    if n > 0 {
      UntamperedScanKeeps(enc, rs, st0, n - 1);
    }
  }

  /** Without a tamper dictionary the box loop leaves the storage region as it was. */
  lemma UntamperedBoxes(p: Profile, id: u32, party: seq<Entry>, stor: seq<byte>)
    requires StorageEnd <= |stor| && Ready(party) && Boxes(p, id, None, party, stor).Ok?
    ensures Boxes(p, id, None, party, stor).value.stor == stor
  {
    UntamperedScanKeeps(SerializerFor(p, id), BoxDecodes(p, stor), InitialScan(party, stor, None), BoxSlots);
  }
}
