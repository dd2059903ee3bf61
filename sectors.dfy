/** The sector store: a save image is 32 sectors of 4096 bytes, each a payload plus a footer
    (id, checksum, security value, counter). Reading puts the payload of every known sector
    at its place in one of a few logical regions, keeping the most recent copy; writing lays
    the regions out again as 32 sectors with fresh checksums. */
module SectorStore {
  import opened Bytes
  import opened Profiles
  import opened Checksums
  import opened Outcomes

  const EmptyId: u16 := 0xFFFF
  const InvalidSecurity: u32 := 0xFFFF_FFFF

  /** One sector after unpacking its frame. */
  datatype SectorRecord = SectorRecord(data: seq<byte>, id: u16, checksum: u16, security: u32, counter: u32)

  // ---------------------------------------------------------------------------
  // Sector frames
  // ---------------------------------------------------------------------------

  /** Unpacks one frame: the payload, the padding (V1 only), then id, checksum, security and
      counter, little-endian. */
  function ParseSector(p: Profile, frame: seq<byte>): (s: SectorRecord)
    requires |frame| == p.SectorSize()
    ensures |s.data| == p.DataSize()
  {
    ProfileLayout(p);
    var f := p.DataSize() + p.FooterPadding();
    SectorRecord(frame[..p.DataSize()], U16At(frame, f), U16At(frame, f + 2), U32At(frame, f + 4), U32At(frame, f + 8))
  }

  /** Packs one frame; the padding bytes are written as zeros. */
  function PackSector(p: Profile, s: SectorRecord): (frame: seq<byte>)
    requires |s.data| == p.DataSize()
    ensures |frame| == p.SectorSize()
  {
    ProfileLayout(p);
    s.data + Zeros(p.FooterPadding()) + Pack16(s.id) + Pack16(s.checksum) + Pack32(s.security) + Pack32(s.counter)
  }

  /** Unpacking a packed frame gives the record back. */
  lemma ParsePackSector(p: Profile, s: SectorRecord)
    requires |s.data| == p.DataSize()
    ensures ParseSector(p, PackSector(p, s)) == s
  {
    ProfileLayout(p);
    var frame := PackSector(p, s);
    var f := p.DataSize() + p.FooterPadding();
    assert frame[f..f + 2] == Pack16(s.id);
    assert frame[f + 2..f + 4] == Pack16(s.checksum);
    assert frame[f + 4..f + 8] == Pack32(s.security);
    assert frame[f + 8..f + 12] == Pack32(s.counter);
    Unpack16Pack16(s.id);
    Unpack16Pack16(s.checksum);
    Unpack32Pack32(s.security);
    Unpack32Pack32(s.counter);
    assert U16At(frame, f) == U16At(frame[f..f + 2], 0);
    assert U16At(frame, f + 2) == U16At(frame[f + 2..f + 4], 0);
    assert U32At(frame, f + 4) == U32At(frame[f + 4..f + 8], 0);
    assert U32At(frame, f + 8) == U32At(frame[f + 8..f + 12], 0);
  }

  /** Packing an unpacked frame gives the frame back when its padding is zero. */
  lemma PackParseSector(p: Profile, frame: seq<byte>)
    requires |frame| == p.SectorSize()
    requires forall k :: p.DataSize() <= k < p.DataSize() + p.FooterPadding() ==> frame[k] == 0
    ensures PackSector(p, ParseSector(p, frame)) == frame
  {
    ProfileLayout(p);
    var f := p.DataSize() + p.FooterPadding();
    Pack16Unpack16(frame, f);
    Pack16Unpack16(frame, f + 2);
    Pack32Unpack32(frame, f + 4);
    Pack32Unpack32(frame, f + 8);
    assert frame == frame[..p.DataSize()] + frame[p.DataSize()..f] + frame[f..f + 2] + frame[f + 2..f + 4]
      + frame[f + 4..f + 8] + frame[f + 8..];
    assert frame[p.DataSize()..f] == Zeros(p.FooterPadding());
  }

  /** The file reading loop: frame after frame until 32 have been read or the image ends;
      a frame cut short by the end of the image makes `struct.unpack` raise. */
  function ReadSectors(p: Profile, image: seq<byte>): Result<seq<SectorRecord>>
  {
    ReadFrames(p, image, SectorCount)
  }

  /** At most n frames from the start of `image`. */
  function ReadFrames(p: Profile, image: seq<byte>, n: nat): Result<seq<SectorRecord>>
    decreases n
  {
    if n == 0 || |image| == 0 then Ok([])
    else if |image| < p.SectorSize() then Err(StructError)
    else
      var rest :- ReadFrames(p, image[p.SectorSize()..], n - 1);
      Ok([ParseSector(p, image[..p.SectorSize()])] + rest)
  }

  lemma FrameShift(image: seq<byte>, ss: nat, j: nat)
    requires 0 < j && ss <= |image| && (j - 1) * ss + ss <= |image| - ss
    ensures j * ss == (j - 1) * ss + ss
    ensures image[ss..][(j - 1) * ss..(j - 1) * ss + ss] == image[j * ss..j * ss + ss]
  {
  }

  /** Reading n frames yields c records, the c whole frames at the head of the image, where
      either c == n or the image has exactly c frames. Every record carries a full payload. */
  lemma {:induction false} ReadFramesOk(p: Profile, image: seq<byte>, n: nat)
    requires ReadFrames(p, image, n).Ok?
    ensures var ss, rs := p.SectorSize(), ReadFrames(p, image, n).value;
      && |rs| <= n && |rs| * ss <= |image| && (|rs| == n || |rs| * ss == |image|)
      && (forall j :: 0 <= j < |rs| ==> rs[j] == ParseSector(p, image[j * ss..j * ss + ss]))
      && (forall j :: 0 <= j < |rs| ==> |rs[j].data| == p.DataSize())
    decreases n
  {
    ProfileLayout(p);
    var ss := p.SectorSize();
    if n > 0 && |image| > 0 {
      var tail := image[ss..];
      ReadFramesOk(p, tail, n - 1);
      var rs := ReadFrames(p, tail, n - 1).value;
      var all := [ParseSector(p, image[..ss])] + rs;
      assert ReadFrames(p, image, n).value == all;
      forall j | 0 < j < |all|
        ensures all[j] == ParseSector(p, image[j * ss..j * ss + ss])
      {
        FrameShift(image, ss, j);
      }
      assert |all| * ss == |rs| * ss + ss;
    }
  }

  /** Reading fails exactly when the image ends inside one of the first n frames. */
  lemma {:induction false} ReadFramesErr(p: Profile, image: seq<byte>, n: nat)
    requires ReadFrames(p, image, n).Err?
    ensures ReadFrames(p, image, n).error == StructError
    ensures exists c :: 0 <= c < n && c * p.SectorSize() < |image| < c * p.SectorSize() + p.SectorSize()
    decreases n
  {
    var ss := p.SectorSize();
    if |image| < ss {
      assert 0 * ss < |image| < 0 * ss + ss;
    } else {
      var tail := image[ss..];
      ReadFramesErr(p, tail, n - 1);
      var c :| 0 <= c < n - 1 && c * ss < |tail| < c * ss + ss;
      assert (c + 1) * ss == c * ss + ss;
      assert (c + 1) * ss < |image| < (c + 1) * ss + ss;
    }
  }

  // ---------------------------------------------------------------------------
  // Sector ids
  // ---------------------------------------------------------------------------

  /** What a sector id stands for; `slot` is the save slot (1 or 2), `part` the index of the
      sector within its structure. */
  datatype SectorDesc =
    | SaveBlock2Sector(slot: nat)
    | SaveBlock1Sector(slot: nat, part: nat)
    | PkmnStorageSector(slot: nat, part: nat)
    | HofSector(part: nat)
    | TrainerHillSector
    | RecordedBattleSector
    | EmptySector
    | UnknownSector

  /** `getSectorDesc`. */
  function GetSectorDesc(id: int): SectorDesc
  {
    if id == 0 then SaveBlock2Sector(1)
    else if 1 <= id <= 4 then SaveBlock1Sector(1, id - 1)
    else if 5 <= id <= 13 then PkmnStorageSector(1, id - 5)
    else if id == 14 then SaveBlock2Sector(2)
    else if 15 <= id <= 18 then SaveBlock1Sector(2, id - 15)
    else if 19 <= id <= 27 then PkmnStorageSector(2, id - 19)
    else if id == 28 || id == 29 then HofSector(id - 28)
    else if id == 30 then TrainerHillSector
    else if id == 31 then RecordedBattleSector
    else if id == 65535 then EmptySector
    else UnknownSector
  }

  /** The table gives a distinct description to each of the ids 0..31 and 65535 and calls
      every other id unknown. */
  lemma GetSectorDescTable(a: int, b: int)
    ensures GetSectorDesc(a).UnknownSector? <==> !(0 <= a <= 31 || a == 65535)
    ensures a != b && !GetSectorDesc(a).UnknownSector? ==> GetSectorDesc(a) != GetSectorDesc(b)
  {
  }

  // ---------------------------------------------------------------------------
  // Regions
  // ---------------------------------------------------------------------------

  datatype Region =
    | Slot1SaveBlock1 | Slot1SaveBlock2 | Slot1PkmnStorage
    | Slot2SaveBlock1 | Slot2SaveBlock2 | Slot2PkmnStorage
    | Hof | TrainerHill | RecordedBattle

  const AllRegions: set<Region> := {
    Slot1SaveBlock1, Slot1SaveBlock2, Slot1PkmnStorage,
    Slot2SaveBlock1, Slot2SaveBlock2, Slot2PkmnStorage,
    Hof, TrainerHill, RecordedBattle }

  /** Number of sectors each region buffer is sized for (both save blocks get four). */
  function RegionSectors(r: Region): nat
  {
    match r
    case Slot1SaveBlock1 | Slot1SaveBlock2 | Slot2SaveBlock1 | Slot2SaveBlock2 => 4
    case Slot1PkmnStorage | Slot2PkmnStorage => 9
    case Hof => 2
    case TrainerHill | RecordedBattle => 1
  }

  /** A region buffer with the counter and security value of the last sector merged into it. */
  datatype RegionBuffer = RegionBuffer(data: seq<byte>, counter: u32, security: u32)

  type Regions = map<Region, RegionBuffer>

  lemma RegionInAll(r: Region)
    ensures r in AllRegions
  {
    match r
    case Slot1SaveBlock1 =>
    case Slot1SaveBlock2 =>
    case Slot1PkmnStorage =>
    case Slot2SaveBlock1 =>
    case Slot2SaveBlock2 =>
    case Slot2PkmnStorage =>
    case Hof =>
    case TrainerHill =>
    case RecordedBattle =>
  }

  /** Every region is present with a buffer of its full size. */
  ghost predicate WellFormed(p: Profile, m: Regions)
  {
    forall r: Region :: r in m && |m[r].data| == RegionSectors(r) * p.DataSize()
  }

  /** Before any sector is read: zero-filled buffers, counter 0, invalid security. */
  function InitialBuffer(p: Profile, r: Region): RegionBuffer
  {
    RegionBuffer(Zeros(RegionSectors(r) * p.DataSize()), 0, InvalidSecurity)
  }

  function InitialRegions(p: Profile): (m: Regions)
    ensures WellFormed(p, m)
    ensures forall r: Region :: m[r] == InitialBuffer(p, r)
  {
    var m := map r | r in AllRegions :: InitialBuffer(p, r);
    forall r: Region ensures r in m {
      RegionInAll(r);
    }
    m
  }

  /** Sector `i` of a region buffer: the bytes `[i*DS, (i+1)*DS)`. */
  function Chunk(p: Profile, m: Regions, r: Region, i: nat): (c: seq<byte>)
    requires WellFormed(p, m) && i < RegionSectors(r)
    ensures |c| == p.DataSize()
  {
    ChunkBounds(i, RegionSectors(r), p.DataSize());
    Piece(m[r].data, i, p.DataSize())
  }

  /** Where a description puts its payload: the region and the sector index inside it. Only
      slot-1 save data and the auxiliary regions are placed. */
  function Placement(d: SectorDesc): Option<(Region, nat)>
  {
    match d
    case SaveBlock2Sector(slot) => if slot == 1 then Some((Slot1SaveBlock2, 0)) else None
    case SaveBlock1Sector(slot, part) => if slot == 1 then Some((Slot1SaveBlock1, part)) else None
    case PkmnStorageSector(slot, part) => if slot == 1 then Some((Slot1PkmnStorage, part)) else None
    case HofSector(part) => Some((Hof, part))
    case TrainerHillSector => Some((TrainerHill, 0))
    case RecordedBattleSector => Some((RecordedBattle, 0))
    case _ => None
  }

  function Target(s: SectorRecord): Option<(Region, nat)>
  {
    Placement(GetSectorDesc(s.id))
  }

  /** A sector has a place exactly when its id is 0..13 or 28..31; that place is inside the
      region and is never a slot-2 region; distinct ids get distinct places. */
  lemma TargetTable(s: SectorRecord, t: SectorRecord)
    ensures Target(s).Some? <==> (0 <= s.id <= 13 || 28 <= s.id <= 31)
    ensures Target(s).Some? ==> Target(s).value.1 < RegionSectors(Target(s).value.0)
    ensures Target(s).Some? ==> Target(s).value.0 !in {Slot2SaveBlock1, Slot2SaveBlock2, Slot2PkmnStorage}
    ensures Target(s).Some? && s.id != t.id ==> Target(s) != Target(t)
  {
  }

  /** The sector is placed and at least as recent as what its region holds. */
  predicate Accepted(m: Regions, s: SectorRecord)
    requires forall r: Region :: r in m
  {
    Target(s).Some? && s.counter >= m[Target(s).value.0].counter
  }

  /** The merge rule: a placed sector whose counter is at least the region's stored counter
      overwrites its slice of the region and sets the region's counter and security. */
  function MergeSector(p: Profile, m: Regions, s: SectorRecord): (m': Regions)
    requires WellFormed(p, m) && |s.data| == p.DataSize()
    ensures WellFormed(p, m')
  {
    if Accepted(m, s) then
      TargetTable(s, s);
      var (r, pos) := Target(s).value;
      ChunkBounds(pos, RegionSectors(r), p.DataSize());
      m[r := RegionBuffer(Splice(m[r].data, pos * p.DataSize(), s.data), s.counter, s.security)]
    else m
  }

  /** The merge rule spelled out case by case, as the reading loop applies it. */
  lemma MergeSectorCases(p: Profile, m: Regions, s: SectorRecord)
    requires WellFormed(p, m) && |s.data| == p.DataSize()
    ensures Target(s).None? ==> MergeSector(p, m, s) == m
    ensures Target(s).Some? ==>
      var r, pos := Target(s).value.0, Target(s).value.1;
      && pos * p.DataSize() + |s.data| <= |m[r].data|
      && MergeSector(p, m, s) == if s.counter >= m[r].counter
           then m[r := RegionBuffer(Splice(m[r].data, pos * p.DataSize(), s.data), s.counter, s.security)]
           else m
  {
    if Target(s).Some? {
      TargetTable(s, s);
      ChunkBounds(Target(s).value.1, RegionSectors(Target(s).value.0), p.DataSize());
    }
  }

  /** Exactly the chunk the sector is placed at changes, and only when the sector is
      accepted; every other region and every other byte stays as it was. */
  lemma MergeSectorEffect(p: Profile, m: Regions, s: SectorRecord, r: Region, k: nat)
    requires WellFormed(p, m) && |s.data| == p.DataSize()
    requires k < |m[r].data|
    ensures var m' := MergeSector(p, m, s);
      if Accepted(m, s) && Target(s).value.0 == r then
        var lo := Target(s).value.1 * p.DataSize();
        && m'[r].counter == s.counter && m'[r].security == s.security
        && m'[r].data[k] == (if lo <= k < lo + p.DataSize() then s.data[k - lo] else m[r].data[k])
      else m'[r] == m[r]
  {
    TargetTable(s, s);
  }

  /** An accepted sector can be read back as the chunk it was placed at. */
  lemma MergeSectorChunk(p: Profile, m: Regions, s: SectorRecord)
    requires WellFormed(p, m) && |s.data| == p.DataSize()
    requires Accepted(m, s)
    ensures Target(s).value.1 < RegionSectors(Target(s).value.0)
    ensures Chunk(p, MergeSector(p, m, s), Target(s).value.0, Target(s).value.1) == s.data
  {
    TargetTable(s, s);
    var (r, pos) := Target(s).value;
    ChunkBounds(pos, RegionSectors(r), p.DataSize());
    SpliceRead(m[r].data, pos * p.DataSize(), s.data);
  }

  predicate Payloads(p: Profile, ss: seq<SectorRecord>)
  {
    forall s <- ss :: |s.data| == p.DataSize()
  }

  /** The reading loop as a fold: the sectors merged one after another, in file order. */
  function Assemble(p: Profile, m: Regions, ss: seq<SectorRecord>): (m': Regions)
    requires WellFormed(p, m) && Payloads(p, ss)
    ensures WellFormed(p, m')
  {
    if ss == [] then m
    else MergeSector(p, Assemble(p, m, ss[..|ss| - 1]), ss[|ss| - 1])
  }

  /** One more step of the fold merges the next sector. */
  lemma AssembleNext(p: Profile, m: Regions, ss: seq<SectorRecord>, i: nat)
    requires WellFormed(p, m) && Payloads(p, ss) && i < |ss|
    ensures Payloads(p, ss[..i]) && Payloads(p, ss[..i + 1])
    ensures Assemble(p, m, ss[..i + 1]) == MergeSector(p, Assemble(p, m, ss[..i]), ss[i])
  {
    assert ss[..i + 1][..i] == ss[..i];
  }

  /** The body of the reading loop for one sector: look up where its id goes and overwrite
      that chunk if the sector is at least as recent as the region. */
  method ApplySector(p: Profile, parsed: Regions, s: SectorRecord) returns (merged: Regions)
    requires WellFormed(p, parsed) && |s.data| == p.DataSize()
    ensures merged == MergeSector(p, parsed, s)
  {
    MergeSectorCases(p, parsed, s);
    merged := parsed;
    var block := Placement(GetSectorDesc(s.id));
    assert block == Target(s);
    if block.Some? {
      var r, pos := block.value.0, block.value.1;
      if s.counter >= parsed[r].counter {
        merged := parsed[r := RegionBuffer(Splice(parsed[r].data, pos * p.DataSize(), s.data), s.counter, s.security)];
      }
    }
  }

  /** `processSavedSector` over the records of the file: at most the first 32 sectors are
      merged, in order. */
  method ProcessSavedSector(p: Profile, sectors: seq<SectorRecord>) returns (parsed: Regions)
    requires Payloads(p, sectors)
    ensures WellFormed(p, parsed)
    ensures parsed == Assemble(p, InitialRegions(p), sectors[..if |sectors| < SectorCount then |sectors| else SectorCount])
  {
    parsed := InitialRegions(p);
    ghost var init := parsed;
    var i := 0;
    while i < |sectors| && i < SectorCount
      invariant 0 <= i <= |sectors| && i <= SectorCount
      invariant WellFormed(p, init)
      invariant parsed == Assemble(p, init, sectors[..i])
    {
      AssembleNext(p, init, sectors, i);
      parsed := ApplySector(p, parsed, sectors[i]);
      i := i + 1;
    }
    assert sectors[..if |sectors| < SectorCount then |sectors| else SectorCount] == sectors[..i];
  }

  /** Reading two runs of sectors one after the other is reading their concatenation. */
  lemma {:induction false} AssembleAppend(p: Profile, m: Regions, a: seq<SectorRecord>, b: seq<SectorRecord>)
    requires WellFormed(p, m) && Payloads(p, a) && Payloads(p, b)
    ensures Payloads(p, a + b)
    ensures Assemble(p, m, a + b) == Assemble(p, Assemble(p, m, a), b)
  {
    if b != [] {
      assert (a + b)[..|a + b| - 1] == a + b[..|b| - 1];
      AssembleAppend(p, m, a, b[..|b| - 1]);
    } else {
      assert a + b == a;
    }
  }

  /** A region no sector is placed in keeps its initial content. */
  lemma {:induction false} AssembleUntouched(p: Profile, m: Regions, ss: seq<SectorRecord>, r: Region)
    requires WellFormed(p, m) && Payloads(p, ss)
    requires forall s <- ss :: Target(s).None? || Target(s).value.0 != r
    ensures Assemble(p, m, ss)[r] == m[r]
  {
    if ss != [] {
      AssembleUntouched(p, m, ss[..|ss| - 1], r);
    }
  }

  /** The slot-2 regions never receive data: whatever the file holds, they stay zero-filled
      with counter 0 and security 0xFFFFFFFF. */
  lemma Slot2StaysEmpty(p: Profile, ss: seq<SectorRecord>, r: Region)
    requires Payloads(p, ss)
    requires r in {Slot2SaveBlock1, Slot2SaveBlock2, Slot2PkmnStorage}
    ensures Assemble(p, InitialRegions(p), ss)[r] == RegionBuffer(Zeros(RegionSectors(r) * p.DataSize()), 0, InvalidSecurity)
  {
    forall s <- ss ensures Target(s).None? || Target(s).value.0 != r {
      TargetTable(s, s);
    }
    AssembleUntouched(p, InitialRegions(p), ss, r);
  }

  /** Recency: of two copies of one sector, the one with the larger counter wins whichever
      is scanned first, so both scan orders give the same regions. */
  lemma NewerCopyWins(p: Profile, m: Regions, older: SectorRecord, newer: SectorRecord)
    requires WellFormed(p, m) && |older.data| == p.DataSize() && |newer.data| == p.DataSize()
    requires older.id == newer.id && older.counter < newer.counter
    ensures MergeSector(p, MergeSector(p, m, older), newer) == MergeSector(p, MergeSector(p, m, newer), older)
  {
    TargetTable(older, newer);
    var m1 := MergeSector(p, m, older);
    var m2 := MergeSector(p, m, newer);
    if Accepted(m, older) {
      var (r, pos) := Target(older).value;
      ChunkBounds(pos, RegionSectors(r), p.DataSize());
      SpliceTwice(m[r].data, pos * p.DataSize(), older.data, newer.data);
      assert Accepted(m1, newer);
      assert Accepted(m, newer);
      assert !Accepted(m2, older);
    } else if Accepted(m, newer) {
      assert m1 == m;
      assert !Accepted(m2, older);
    } else {
      assert m1 == m && m2 == m;
    }
  }

  /** After both copies are read, the region holds the newer copy's payload and counter
      whenever that copy is at least as recent as what the region held before. */
  lemma NewerCopyKept(p: Profile, m: Regions, older: SectorRecord, newer: SectorRecord)
    requires WellFormed(p, m) && |older.data| == p.DataSize() && |newer.data| == p.DataSize()
    requires older.id == newer.id && older.counter < newer.counter && Accepted(m, newer)
    ensures var m' := MergeSector(p, MergeSector(p, m, older), newer);
      && Target(newer).value.1 < RegionSectors(Target(newer).value.0)
      && m'[Target(newer).value.0].counter == newer.counter
      && Chunk(p, m', Target(newer).value.0, Target(newer).value.1) == newer.data
  {
    TargetTable(older, newer);
    var m1 := MergeSector(p, m, older);
    assert Accepted(m1, newer);
    MergeSectorChunk(p, m1, newer);
  }

  // ---------------------------------------------------------------------------
  // Writing the sectors back
  // ---------------------------------------------------------------------------

  /** The counter of the written slot-1 sectors: one more than the stored one, moved up to
      the next even number because slot 1 is only used for even counters. */
  function NextCounter(c: u32): nat
  {
    if (c + 1) % 2 == 1 then c + 2 else c + 1
  }

  /** The region output sector k is cut from: SAVEBLOCK2, SAVEBLOCK1 and the box storage
      for slot 1, then the same for slot 2, then HOF, TRAINERHILL and RECORDEDBATTLE. */
  function OutputRegion(k: nat): Region
    requires k < SectorCount
  {
    if k == 0 then Slot1SaveBlock2
    else if k < 5 then Slot1SaveBlock1
    else if k < 14 then Slot1PkmnStorage
    else if k == 14 then Slot2SaveBlock2
    else if k < 19 then Slot2SaveBlock1
    else if k < 28 then Slot2PkmnStorage
    else if k < 30 then Hof
    else if k == 30 then TrainerHill
    else RecordedBattle
  }

  /** Which sector of its region output sector k is; SAVEBLOCK2 contributes only its first. */
  function OutputChunk(k: nat): (i: nat)
    requires k < SectorCount
    ensures i < RegionSectors(OutputRegion(k))
  {
    if k == 0 || k == 14 || k >= 30 then 0
    else if k < 5 then k - 1
    else if k < 14 then k - 5
    else if k < 19 then k - 15
    else if k < 28 then k - 19
    else k - 28
  }

  function SavedPayload(p: Profile, m: Regions, k: nat): (c: seq<byte>)
    requires WellFormed(p, m) && k < SectorCount
    ensures |c| == p.DataSize()
  {
    Chunk(p, m, OutputRegion(k), OutputChunk(k))
  }

  /** The id of output sector k: 0..13 for slot 1; the empty id for slot 2; 28..31 for the
      auxiliary regions unless the gating security value is invalid. RECORDEDBATTLE is gated
      on TRAINERHILL's security value, as the writer does it. */
  function SavedId(m: Regions, k: nat): u16
    requires forall r: Region :: r in m
    requires k < SectorCount
  {
    if k < 14 then k
    else if k < 28 then EmptyId
    else if k < 30 then (if m[Hof].security == InvalidSecurity then EmptyId else k)
    else if m[TrainerHill].security == InvalidSecurity then EmptyId
    else k
  }

  function SavedSecurity(m: Regions, k: nat): u32
    requires forall r: Region :: r in m
    requires k < SectorCount
  {
    if k < 14 then m[Slot1SaveBlock2].security
    else if k < 28 then InvalidSecurity
    else if k < 30 then m[Hof].security
    else if k == 30 then m[TrainerHill].security
    else m[RecordedBattle].security
  }

  function SavedSector(p: Profile, m: Regions, counter: u32, k: nat): (s: SectorRecord)
    requires WellFormed(p, m) && k < SectorCount
    ensures |s.data| == p.DataSize()
  {
    var data := SavedPayload(p, m, k);
    SectorRecord(data, SavedId(m, k), SectorChecksum(data, p.DataSize()), SavedSecurity(m, k),
                 if 14 <= k < 28 then 0 else counter)
  }

  /** The image `saveSectors` writes, sector by sector, or the exception `struct.pack`
      raises when the new counter does not fit in 32 bits. */
  function SavedImage(p: Profile, m: Regions): (res: Result<seq<SectorRecord>>)
    requires WellFormed(p, m)
    ensures res.Ok? ==> |res.value| == SectorCount && Payloads(p, res.value)
  {
    var c := NextCounter(m[Slot1SaveBlock2].counter);
    if c >= 0x1_0000_0000 then Err(StructError)
    else Ok(seq(SectorCount, k requires 0 <= k < SectorCount => SavedSector(p, m, c, k)))
  }

  /** `__writeSector`: the record that is packed, with its checksum computed over the payload. */
  method WriteSector(p: Profile, data: seq<byte>, iden: u16, security: u32, counter: u32) returns (s: SectorRecord)
    ensures s == SectorRecord(data, iden, SectorChecksum(data, p.DataSize()), security, counter)
  {
    var checksum := CalculateChecksum(data, p.DataSize());
    s := SectorRecord(data, iden, checksum, security, counter);
  }

  /** The first fourteen writes of `saveSectors`: slot 1 with ids 0..13, the security value
      of SAVEBLOCK2 and the new counter. */
  method WriteSlot1(p: Profile, m: Regions, security: u32, c: u32) returns (out: seq<SectorRecord>)
    requires WellFormed(p, m) && security == m[Slot1SaveBlock2].security
    ensures |out| == 14 && forall k :: 0 <= k < 14 ==> out[k] == SavedSector(p, m, c, k)
  {
    out := [];
    var id := 0;
    var s := WriteSector(p, Chunk(p, m, Slot1SaveBlock2, 0), id, security, c);
    SlotWrite(p, m, c, Slot1SaveBlock2, 0, 0);
    WroteNext(p, m, c, 0, out, s);
    out, id := out + [s], id + 1;
    for i := 0 to 4
      invariant id == 1 + i && |out| == id && Wrote(p, m, c, 0, out)
    {
      s := WriteSector(p, Chunk(p, m, Slot1SaveBlock1, i), id, security, c);
      SlotWrite(p, m, c, Slot1SaveBlock1, i, id);
      WroteNext(p, m, c, 0, out, s);
      out, id := out + [s], id + 1;
    }
    for i := 0 to 9
      invariant id == 5 + i && |out| == id && Wrote(p, m, c, 0, out)
    {
      s := WriteSector(p, Chunk(p, m, Slot1PkmnStorage, i), id, security, c);
      SlotWrite(p, m, c, Slot1PkmnStorage, i, id);
      WroteNext(p, m, c, 0, out, s);
      out, id := out + [s], id + 1;
    }
  }

  /** The next fourteen writes: slot 2, every sector marked empty with the invalid security
      value and counter 0. */
  method WriteSlot2(p: Profile, m: Regions, c: u32) returns (out: seq<SectorRecord>)
    requires WellFormed(p, m)
    ensures |out| == 14 && forall k :: 0 <= k < 14 ==> out[k] == SavedSector(p, m, c, 14 + k)
  {
    out := [];
    var s := WriteSector(p, Chunk(p, m, Slot2SaveBlock2, 0), EmptyId, InvalidSecurity, 0);
    SlotWrite(p, m, c, Slot2SaveBlock2, 0, 14);
    WroteNext(p, m, c, 14, out, s);
    out := out + [s];
    for i := 0 to 4
      invariant |out| == 1 + i && Wrote(p, m, c, 14, out)
    {
      s := WriteSector(p, Chunk(p, m, Slot2SaveBlock1, i), EmptyId, InvalidSecurity, 0);
      SlotWrite(p, m, c, Slot2SaveBlock1, i, 14 + |out|);
      WroteNext(p, m, c, 14, out, s);
      out := out + [s];
    }
    for i := 0 to 9
      invariant |out| == 5 + i && Wrote(p, m, c, 14, out)
    {
      s := WriteSector(p, Chunk(p, m, Slot2PkmnStorage, i), EmptyId, InvalidSecurity, 0);
      SlotWrite(p, m, c, Slot2PkmnStorage, i, 14 + |out|);
      WroteNext(p, m, c, 14, out, s);
      out := out + [s];
    }
  }

  /** Slot write k, for chunk i of region r: slot 1 is keyed by its running id with the
      security of SAVEBLOCK2, slot 2 by the empty id with the invalid security and counter 0. */
  lemma SlotWrite(p: Profile, m: Regions, c: u32, r: Region, i: nat, k: nat)
    requires WellFormed(p, m) && k < 28 && i < RegionSectors(r)
    requires OutputRegion(k) == r && OutputChunk(k) == i
    ensures var data := Chunk(p, m, r, i);
      SavedSector(p, m, c, k) ==
        if k < 14 then SectorRecord(data, k, SectorChecksum(data, p.DataSize()), m[Slot1SaveBlock2].security, c)
        else SectorRecord(data, EmptyId, SectorChecksum(data, p.DataSize()), InvalidSecurity, 0)
  {
  }

  /** `out` is the run of output sectors that starts at sector `base`. */
  ghost predicate Wrote(p: Profile, m: Regions, c: u32, base: nat, out: seq<SectorRecord>)
    requires WellFormed(p, m)
  {
    base + |out| <= SectorCount && forall k :: 0 <= k < |out| ==> out[k] == SavedSector(p, m, c, base + k)
  }

  lemma WroteNext(p: Profile, m: Regions, c: u32, base: nat, out: seq<SectorRecord>, s: SectorRecord)
    requires WellFormed(p, m) && Wrote(p, m, c, base, out) && base + |out| < SectorCount
    requires s == SavedSector(p, m, c, base + |out|)
    ensures Wrote(p, m, c, base, out + [s])
  {
  }

  /** The record the HOF loop writes in its round i is output sector 28 + i. */
  lemma HofWrite(p: Profile, m: Regions, c: u32, i: nat, hofId: u16)
    requires WellFormed(p, m) && i < 2
    requires hofId == if m[Hof].security == InvalidSecurity then EmptyId else 28 + i
    ensures var data := Chunk(p, m, Hof, i);
      SectorRecord(data, hofId, SectorChecksum(data, p.DataSize()), m[Hof].security, c) == SavedSector(p, m, c, 28 + i)
  {
    assert OutputRegion(28 + i) == Hof && OutputChunk(28 + i) == i;
  }

  /** The two HOF writes: ids 28 and 29, or the empty id for both when HOF's security value
      is invalid. */
  method WriteHof(p: Profile, m: Regions, c: u32) returns (out: seq<SectorRecord>)
    requires WellFormed(p, m)
    ensures |out| == 2 && forall k :: 0 <= k < 2 ==> out[k] == SavedSector(p, m, c, 28 + k)
  {
    out := [];
    var id := 28;
    var hofId: u16 := if m[Hof].security == InvalidSecurity then EmptyId else id;
    for i := 0 to 2
      invariant id == 28 + i
      invariant Wrote(p, m, c, 28, out) && |out| == i
      invariant hofId == if m[Hof].security == InvalidSecurity then EmptyId else id
    {
      var data := Chunk(p, m, Hof, i);
      var s := WriteSector(p, data, hofId, m[Hof].security, c);
      HofWrite(p, m, c, i, hofId);
      WroteNext(p, m, c, 28, out, s);
      out, id := out + [s], id + 1;
      if hofId != EmptyId {
        hofId := hofId + 1;
      }
    }
  }

  /** The last four writes: HOF, then TRAINERHILL with id 30 and RECORDEDBATTLE with id 31,
      both gated on TRAINERHILL's security value. */
  method WriteAuxiliary(p: Profile, m: Regions, c: u32) returns (out: seq<SectorRecord>)
    requires WellFormed(p, m)
    ensures |out| == 4 && forall k :: 0 <= k < 4 ==> out[k] == SavedSector(p, m, c, 28 + k)
  {
    out := WriteHof(p, m, c);
    var id := 30;
    var trainId: u16 := if m[TrainerHill].security == InvalidSecurity then EmptyId else id;
    var s := WriteSector(p, Chunk(p, m, TrainerHill, 0), trainId, m[TrainerHill].security, c);
    assert s == SavedSector(p, m, c, 30);
    out, id := out + [s], id + 1;
    var batId: u16 := if m[TrainerHill].security == InvalidSecurity then EmptyId else id;
    s := WriteSector(p, Chunk(p, m, RecordedBattle, 0), batId, m[RecordedBattle].security, c);
    assert s == SavedSector(p, m, c, 31);
    out := out + [s];
  }

  /** `saveSectors`: the new counter, then 32 sectors written in order with a running id. */
  method SaveSectors(p: Profile, sectors: Regions) returns (res: Result<seq<SectorRecord>>)
    requires WellFormed(p, sectors)
    ensures res == SavedImage(p, sectors)
  {
    var security := sectors[Slot1SaveBlock2].security;
    var counter := sectors[Slot1SaveBlock2].counter + 1;
    if counter % 2 == 1 {
      counter := counter + 1;
    }
    if counter >= 0x1_0000_0000 {
      return Err(StructError);
    }
    var slot1 := WriteSlot1(p, sectors, security, counter);
    var slot2 := WriteSlot2(p, sectors, counter);
    var aux := WriteAuxiliary(p, sectors, counter);
    var out := slot1 + slot2 + aux;
    assert out == SavedImage(p, sectors).value;
    res := Ok(out);
  }

  // ---------------------------------------------------------------------------
  // Reading back what was written
  // ---------------------------------------------------------------------------

  /** A sector placed elsewhere leaves a chunk alone. */
  lemma MergeKeepsChunk(p: Profile, m: Regions, s: SectorRecord, r: Region, i: nat)
    requires WellFormed(p, m) && |s.data| == p.DataSize() && i < RegionSectors(r)
    requires Target(s) != Some((r, i))
    ensures Chunk(p, MergeSector(p, m, s), r, i) == Chunk(p, m, r, i)
  {
    MergeSectorCases(p, m, s);
    if Accepted(m, s) && Target(s).value.0 == r {
      var pos := Target(s).value.1;
      PieceOfSpliceOther(m[r].data, RegionSectors(r), p.DataSize(), pos, s.data, i);
    }
  }

  /** A chunk no sector is placed at keeps its old content. */
  lemma {:induction false} AssembleKeepsChunk(p: Profile, m: Regions, ss: seq<SectorRecord>, r: Region, i: nat)
    requires WellFormed(p, m) && Payloads(p, ss) && i < RegionSectors(r)
    requires forall s <- ss :: Target(s) != Some((r, i))
    ensures Chunk(p, Assemble(p, m, ss), r, i) == Chunk(p, m, r, i)
  {
    if ss != [] {
      AssembleKeepsChunk(p, m, ss[..|ss| - 1], r, i);
      MergeKeepsChunk(p, Assemble(p, m, ss[..|ss| - 1]), ss[|ss| - 1], r, i);
    }
  }

  /** No region holds a counter above c. */
  ghost predicate CountersAtMost(m: Regions, c: nat)
  {
    forall r :: r in m ==> m[r].counter <= c
  }

  /** Every sector that has a place carries counter c. */
  predicate Stamped(ss: seq<SectorRecord>, c: nat)
  {
    forall s <- ss :: Target(s).Some? ==> s.counter == c
  }

  lemma {:induction false} AssembleCounters(p: Profile, m: Regions, ss: seq<SectorRecord>, c: nat)
    requires WellFormed(p, m) && Payloads(p, ss) && CountersAtMost(m, c) && Stamped(ss, c)
    ensures CountersAtMost(Assemble(p, m, ss), c)
  {
    if ss != [] {
      AssembleCounters(p, m, ss[..|ss| - 1], c);
      MergeSectorCases(p, Assemble(p, m, ss[..|ss| - 1]), ss[|ss| - 1]);
    }
  }

  /** A placed sector carrying counter c, read after sectors that keep every counter at or
      below c, is what its chunk holds right after it is read. */
  lemma AssembleAcceptsNext(p: Profile, m: Regions, ss: seq<SectorRecord>, j: nat, c: nat)
    requires WellFormed(p, m) && Payloads(p, ss) && CountersAtMost(m, c) && Stamped(ss, c)
    requires j < |ss| && Target(ss[j]).Some?
    ensures Payloads(p, ss[..j + 1])
    ensures Target(ss[j]).value.1 < RegionSectors(Target(ss[j]).value.0)
    ensures Chunk(p, Assemble(p, m, ss[..j + 1]), Target(ss[j]).value.0, Target(ss[j]).value.1) == ss[j].data
  {
    AssembleNext(p, m, ss, j);
    var before := Assemble(p, m, ss[..j]);
    AssembleCounters(p, m, ss[..j], c);
    assert Accepted(before, ss[j]);
    MergeSectorChunk(p, before, ss[j]);
  }

  /** When all placed sectors carry the same counter, no older than what the regions hold,
      the last sector placed at a chunk is what the chunk holds afterwards. */
  lemma AssembleWritesChunk(p: Profile, m: Regions, ss: seq<SectorRecord>, j: nat, c: nat)
    requires WellFormed(p, m) && Payloads(p, ss) && CountersAtMost(m, c) && Stamped(ss, c)
    requires j < |ss| && Target(ss[j]).Some?
    requires forall j' :: j < j' < |ss| ==> Target(ss[j']) != Target(ss[j])
    ensures Target(ss[j]).value.1 < RegionSectors(Target(ss[j]).value.0)
    ensures Chunk(p, Assemble(p, m, ss), Target(ss[j]).value.0, Target(ss[j]).value.1) == ss[j].data
  {
    AssembleAcceptsNext(p, m, ss, j, c);
    TailAvoids(ss, j);
    ChunkKeptAfter(p, m, ss, j + 1, Target(ss[j]).value.0, Target(ss[j]).value.1);
  }

  /** A chunk that no sector after the first n is placed at holds, after all of `ss`, what
      it held after the first n. */
  lemma ChunkKeptAfter(p: Profile, m: Regions, ss: seq<SectorRecord>, n: nat, r: Region, i: nat)
    requires WellFormed(p, m) && Payloads(p, ss) && n <= |ss| && i < RegionSectors(r)
    requires forall s <- ss[n..] :: Target(s) != Some((r, i))
    ensures Payloads(p, ss[..n])
    ensures Chunk(p, Assemble(p, m, ss), r, i) == Chunk(p, Assemble(p, m, ss[..n]), r, i)
  {
    var head, tail := ss[..n], ss[n..];
    assert ss == head + tail;
    AssembleAppend(p, m, head, tail);
    AssembleKeepsChunk(p, Assemble(p, m, head), tail, r, i);
  }

  /** No sector after position j is placed where sector j is. */
  lemma TailAvoids(ss: seq<SectorRecord>, j: nat)
    requires j < |ss| && forall j' :: j < j' < |ss| ==> Target(ss[j']) != Target(ss[j])
    ensures forall s <- ss[j + 1..] :: Target(s) != Target(ss[j])
  {
    forall s <- ss[j + 1..] ensures Target(s) != Target(ss[j]) {
      var j' :| 0 <= j' < |ss[j + 1..]| && ss[j + 1..][j'] == s;
      assert ss[j + 1..][j'] == ss[j + 1 + j'];
    }
  }

  /** Every sector placed in region r carries security value sec. */
  predicate SecuredIn(ss: seq<SectorRecord>, r: Region, sec: u32)
  {
    forall s <- ss :: Target(s).Some? && Target(s).value.0 == r ==> s.security == sec
  }

  /** Some sector of `ss` is placed in region r. */
  predicate Reaches(ss: seq<SectorRecord>, r: Region)
  {
    exists j :: 0 <= j < |ss| && Target(ss[j]).Some? && Target(ss[j]).value.0 == r
  }

  /** Dropping the last sector keeps what holds of every sector. */
  lemma DropLast(p: Profile, ss: seq<SectorRecord>, c: nat, r: Region, sec: u32)
    requires ss != [] && Payloads(p, ss) && Stamped(ss, c) && SecuredIn(ss, r, sec)
    ensures var init, last := ss[..|ss| - 1], ss[|ss| - 1];
      && Payloads(p, init) && Stamped(init, c) && SecuredIn(init, r, sec)
      && |last.data| == p.DataSize() && (Target(last).Some? ==> last.counter == c)
      && (Target(last).Some? && Target(last).value.0 == r ==> last.security == sec)
      && (Reaches(ss, r) && !(Target(last).Some? && Target(last).value.0 == r) ==> Reaches(init, r))
  {
    var init := ss[..|ss| - 1];
    assert forall s <- init :: s in ss;
    if Reaches(ss, r) && !(Target(ss[|ss| - 1]).Some? && Target(ss[|ss| - 1]).value.0 == r) {
      var j :| 0 <= j < |ss| && Target(ss[j]).Some? && Target(ss[j]).value.0 == r;
      assert init[j] == ss[j];
    }
  }

  /** When all sectors carry counter c and every sector placed in region r carries the
      security value sec, a region that receives a sector ends with counter c and sec. */
  lemma {:induction false} AssembleStamp(p: Profile, m: Regions, ss: seq<SectorRecord>, r: Region, c: nat, sec: u32)
    requires WellFormed(p, m) && Payloads(p, ss) && CountersAtMost(m, c) && Stamped(ss, c)
    requires Reaches(ss, r) && SecuredIn(ss, r, sec)
    ensures Assemble(p, m, ss)[r].counter == c && Assemble(p, m, ss)[r].security == sec
  {
    var last, init := ss[|ss| - 1], ss[..|ss| - 1];
    DropLast(p, ss, c, r, sec);
    AssembleCounters(p, m, init, c);
    var before := Assemble(p, m, init);
    assert Assemble(p, m, ss) == MergeSector(p, before, last);
    MergeSectorCases(p, before, last);
    if !(Target(last).Some? && Target(last).value.0 == r) {
      MergeSectorEffect(p, before, last, r, 0);
      AssembleStamp(p, m, init, r, c, sec);
    }
  }

  /** The ids the writer gives, 0..13 and 28..31, are placed exactly where the writer cut
      them from. */
  lemma PlacementOfOutput(k: nat)
    requires k < 14 || 28 <= k < SectorCount
    ensures Placement(GetSectorDesc(k)) == Some((OutputRegion(k), OutputChunk(k)))
  {
    if k == 0 {
    } else if k < 5 {
    } else if k < 14 {
    } else if k < 30 {
    } else {
    }
  }

  /** Where a written sector is read back to: its own output position, unless it was written
      with the empty id. */
  lemma SavedTarget(p: Profile, m: Regions, c: u32, k: nat)
    requires WellFormed(p, m) && k < SectorCount
    ensures SavedId(m, k) == EmptyId || SavedId(m, k) == k
    ensures Target(SavedSector(p, m, c, k)) ==
      if SavedId(m, k) == EmptyId then None else Some((OutputRegion(k), OutputChunk(k)))
  {
    if SavedId(m, k) != EmptyId {
      PlacementOfOutput(k);
    }
  }

  /** The regions read back from a written image. */
  function ReadBack(p: Profile, m: Regions): (back: Regions)
    requires WellFormed(p, m) && SavedImage(p, m).Ok?
    ensures WellFormed(p, back)
  {
    Assemble(p, InitialRegions(p), SavedImage(p, m).value)
  }

  /** Two written sectors never share a place. */
  lemma SavedTargetsDistinct(p: Profile, m: Regions, c: u32, j: nat, k: nat)
    requires WellFormed(p, m) && j < SectorCount && k < SectorCount && j != k
    requires SavedId(m, k) != EmptyId
    ensures Target(SavedSector(p, m, c, j)) != Target(SavedSector(p, m, c, k))
  {
    SavedTarget(p, m, c, j);
    SavedTarget(p, m, c, k);
    if SavedId(m, j) != EmptyId {
      TargetTable(SavedSector(p, m, c, j), SavedSector(p, m, c, k));
    }
  }

  /** Every sector of a written image carries the new counter. */
  lemma SavedImageStamped(p: Profile, m: Regions)
    requires WellFormed(p, m) && SavedImage(p, m).Ok?
    ensures var img := SavedImage(p, m).value;
      && (forall k :: 0 <= k < SectorCount ==> img[k] == SavedSector(p, m, NextCounter(m[Slot1SaveBlock2].counter), k))
      && Stamped(img, NextCounter(m[Slot1SaveBlock2].counter))
  {
    var c := NextCounter(m[Slot1SaveBlock2].counter);
    var img := SavedImage(p, m).value;
    forall s <- img ensures Target(s).Some? ==> s.counter == c {
      var j :| 0 <= j < |img| && img[j] == s;
      assert img[j] == SavedSector(p, m, c, j);
      SavedTarget(p, m, c, j);
    }
  }

  /** A chunk written with a real id is read back unchanged. */
  lemma ReadBackChunk(p: Profile, m: Regions, k: nat)
    requires WellFormed(p, m) && SavedImage(p, m).Ok? && k < SectorCount && SavedId(m, k) != EmptyId
    ensures Chunk(p, ReadBack(p, m), OutputRegion(k), OutputChunk(k)) == Chunk(p, m, OutputRegion(k), OutputChunk(k))
  {
    var c := NextCounter(m[Slot1SaveBlock2].counter);
    var img := SavedImage(p, m).value;
    SavedImageStamped(p, m);
    SavedTarget(p, m, c, k);
    forall j' | k < j' < |img| ensures Target(img[j']) != Target(img[k]) {
      SavedTargetsDistinct(p, m, c, j', k);
    }
    assert CountersAtMost(InitialRegions(p), c);
    AssembleWritesChunk(p, InitialRegions(p), img, k, c);
  }

  /** A region every chunk of which was written with a real id is read back unchanged. */
  lemma ReadBackWhole(p: Profile, m: Regions, r: Region, base: nat)
    requires WellFormed(p, m) && SavedImage(p, m).Ok? && base + RegionSectors(r) <= SectorCount
    requires forall j :: base <= j < base + RegionSectors(r) ==>
      OutputRegion(j) == r && OutputChunk(j) == j - base && SavedId(m, j) != EmptyId
    ensures ReadBack(p, m)[r].data == m[r].data
  {
    var back, n, d := ReadBack(p, m), RegionSectors(r), p.DataSize();
    forall i | 0 <= i < n
      ensures ChunkFits(i, n, d) && Piece(back[r].data, i, d) == Piece(m[r].data, i, d)
    {
      ChunkBounds(i, n, d);
      ReadBackChunk(p, m, base + i);
      assert Chunk(p, back, r, i) == Piece(back[r].data, i, d);
    }
    PiecesDetermine(back[r].data, m[r].data, n, d);
  }

  /** A region that receives at least one written sector ends with the new counter and the
      security value all its sectors were written with. */
  lemma ReadBackStamp(p: Profile, m: Regions, r: Region, k: nat, sec: u32)
    requires WellFormed(p, m) && SavedImage(p, m).Ok?
    requires k < SectorCount && SavedId(m, k) != EmptyId && OutputRegion(k) == r
    requires forall j :: 0 <= j < SectorCount && SavedId(m, j) != EmptyId && OutputRegion(j) == r ==>
      SavedSecurity(m, j) == sec
    ensures ReadBack(p, m)[r].counter == NextCounter(m[Slot1SaveBlock2].counter)
    ensures ReadBack(p, m)[r].security == sec
  {
    var c := NextCounter(m[Slot1SaveBlock2].counter);
    var img := SavedImage(p, m).value;
    SavedImageStamped(p, m);
    SavedTarget(p, m, c, k);
    forall s <- img | Target(s).Some? && Target(s).value.0 == r ensures s.security == sec {
      var j :| 0 <= j < |img| && img[j] == s;
      SavedTarget(p, m, c, j);
    }
    assert CountersAtMost(InitialRegions(p), c);
    AssembleStamp(p, InitialRegions(p), img, r, c, sec);
  }

  /** A region no sector is written to with a real id is read back as it starts out. */
  lemma ReadBackUntouched(p: Profile, m: Regions, r: Region)
    requires WellFormed(p, m) && SavedImage(p, m).Ok?
    requires forall j :: 0 <= j < SectorCount && OutputRegion(j) == r ==> SavedId(m, j) == EmptyId
    ensures ReadBack(p, m)[r] == InitialBuffer(p, r)
  {
    var c := NextCounter(m[Slot1SaveBlock2].counter);
    var img := SavedImage(p, m).value;
    SavedImageStamped(p, m);
    forall s <- img ensures Target(s).None? || Target(s).value.0 != r {
      var j :| 0 <= j < |img| && img[j] == s;
      SavedTarget(p, m, c, j);
    }
    AssembleUntouched(p, InitialRegions(p), img, r);
  }

  lemma ReadBackSaveBlock2Tail(p: Profile, m: Regions, i: nat)
    requires WellFormed(p, m) && SavedImage(p, m).Ok? && 0 < i < 4
    ensures Chunk(p, ReadBack(p, m), Slot1SaveBlock2, i) == Zeros(p.DataSize())
  {
    var img := SavedImage(p, m).value;
    SavedImageStamped(p, m);
    SaveBlock2WrittenOnce(p, m, NextCounter(m[Slot1SaveBlock2].counter), i);
    forall s <- img ensures Target(s) != Some((Slot1SaveBlock2, i)) {
      var j :| 0 <= j < |img| && img[j] == s;
    }
    AssembleKeepsChunk(p, InitialRegions(p), img, Slot1SaveBlock2, i);
    InitialChunk(p, Slot1SaveBlock2, i);
  }

  /** Every chunk of the fresh buffers is zero. */
  lemma InitialChunk(p: Profile, r: Region, i: nat)
    requires i < RegionSectors(r)
    ensures Chunk(p, InitialRegions(p), r, i) == Zeros(p.DataSize())
  {
    var c := Chunk(p, InitialRegions(p), r, i);
    var d := p.DataSize();
    ChunkBounds(i, RegionSectors(r), d);
    forall k | 0 <= k < d ensures c[k] == 0 {
      assert c[k] == InitialRegions(p)[r].data[i * d + k];
    }
  }

  /** No written sector is placed at chunks 1-3 of SAVEBLOCK2. */
  lemma SaveBlock2WrittenOnce(p: Profile, m: Regions, c: u32, i: nat)
    requires WellFormed(p, m) && 0 < i < 4
    ensures forall k :: 0 <= k < SectorCount ==> Target(SavedSector(p, m, c, k)) != Some((Slot1SaveBlock2, i))
  {
    forall k | 0 <= k < SectorCount ensures Target(SavedSector(p, m, c, k)) != Some((Slot1SaveBlock2, i)) {
      SavedTarget(p, m, c, k);
    }
  }

  /** Only the first sector of SAVEBLOCK2 is written: the other three read back as zeros. */
  lemma ReadBackSaveBlock2(p: Profile, m: Regions)
    requires WellFormed(p, m) && SavedImage(p, m).Ok?
    ensures ReadBack(p, m)[Slot1SaveBlock2].data == Chunk(p, m, Slot1SaveBlock2, 0) + Zeros(3 * p.DataSize())
  {
    var c := NextCounter(m[Slot1SaveBlock2].counter);
    var img := SavedImage(p, m).value;
    var back, d := ReadBack(p, m), p.DataSize();
    var want := Chunk(p, m, Slot1SaveBlock2, 0) + Zeros(3 * d);
    SavedImageStamped(p, m);
    forall i | 0 <= i < 4
      ensures ChunkFits(i, 4, d) && Piece(back[Slot1SaveBlock2].data, i, d) == Piece(want, i, d)
    {
      ChunkBounds(i, 4, d);
      assert Chunk(p, back, Slot1SaveBlock2, i) == Piece(back[Slot1SaveBlock2].data, i, d);
      if i == 0 {
        ReadBackChunk(p, m, 0);
      } else {
        ReadBackSaveBlock2Tail(p, m, i);
        assert Piece(want, i, d) == Zeros(d);
      }
    }
    PiecesDetermine(back[Slot1SaveBlock2].data, want, 4, d);
  }

  lemma ReadBackSlot1(p: Profile, m: Regions)
    requires WellFormed(p, m) && SavedImage(p, m).Ok?
    ensures var back, c, sec := ReadBack(p, m), NextCounter(m[Slot1SaveBlock2].counter), m[Slot1SaveBlock2].security;
      && back[Slot1SaveBlock1] == RegionBuffer(m[Slot1SaveBlock1].data, c, sec)
      && back[Slot1PkmnStorage] == RegionBuffer(m[Slot1PkmnStorage].data, c, sec)
      && back[Slot1SaveBlock2] == RegionBuffer(Chunk(p, m, Slot1SaveBlock2, 0) + Zeros(3 * p.DataSize()), c, sec)
  {
    var sec := m[Slot1SaveBlock2].security;
    ReadBackWhole(p, m, Slot1SaveBlock1, 1);
    ReadBackStamp(p, m, Slot1SaveBlock1, 1, sec);
    ReadBackWhole(p, m, Slot1PkmnStorage, 5);
    ReadBackStamp(p, m, Slot1PkmnStorage, 5, sec);
    ReadBackSaveBlock2(p, m);
    ReadBackStamp(p, m, Slot1SaveBlock2, 0, sec);
  }

  lemma ReadBackHof(p: Profile, m: Regions)
    requires WellFormed(p, m) && SavedImage(p, m).Ok?
    ensures ReadBack(p, m)[Hof] == (if m[Hof].security == InvalidSecurity then InitialBuffer(p, Hof)
      else RegionBuffer(m[Hof].data, NextCounter(m[Slot1SaveBlock2].counter), m[Hof].security))
  {
    if m[Hof].security == InvalidSecurity {
      ReadBackUntouched(p, m, Hof);
    } else {
      ReadBackWhole(p, m, Hof, 28);
      ReadBackStamp(p, m, Hof, 28, m[Hof].security);
    }
  }

  lemma ReadBackTrainerHill(p: Profile, m: Regions)
    requires WellFormed(p, m) && SavedImage(p, m).Ok?
    ensures ReadBack(p, m)[TrainerHill] == (if m[TrainerHill].security == InvalidSecurity then InitialBuffer(p, TrainerHill)
      else RegionBuffer(m[TrainerHill].data, NextCounter(m[Slot1SaveBlock2].counter), m[TrainerHill].security))
  {
    if m[TrainerHill].security == InvalidSecurity {
      ReadBackUntouched(p, m, TrainerHill);
    } else {
      ReadBackWhole(p, m, TrainerHill, 30);
      ReadBackStamp(p, m, TrainerHill, 30, m[TrainerHill].security);
    }
  }

  lemma ReadBackRecordedBattle(p: Profile, m: Regions)
    requires WellFormed(p, m) && SavedImage(p, m).Ok?
    ensures ReadBack(p, m)[RecordedBattle] == (if m[TrainerHill].security == InvalidSecurity then InitialBuffer(p, RecordedBattle)
      else RegionBuffer(m[RecordedBattle].data, NextCounter(m[Slot1SaveBlock2].counter), m[RecordedBattle].security))
  {
    if m[TrainerHill].security == InvalidSecurity {
      ReadBackUntouched(p, m, RecordedBattle);
    } else {
      ReadBackWhole(p, m, RecordedBattle, 31);
      ReadBackStamp(p, m, RecordedBattle, 31, m[RecordedBattle].security);
    }
  }

  /** Writing the regions and reading the image back gives slot 1 and the auxiliary regions
      again, each stamped with the new counter; only the first sector of SAVEBLOCK2 survives;
      HOF and TRAINERHILL come back only when their security value is valid, and
      RECORDEDBATTLE only when TRAINERHILL's is; slot 2 comes back empty. */
  lemma SaveThenRead(p: Profile, m: Regions)
    requires WellFormed(p, m) && SavedImage(p, m).Ok?
    ensures var back, c, sec := ReadBack(p, m), NextCounter(m[Slot1SaveBlock2].counter), m[Slot1SaveBlock2].security;
      && back[Slot1SaveBlock1] == RegionBuffer(m[Slot1SaveBlock1].data, c, sec)
      && back[Slot1PkmnStorage] == RegionBuffer(m[Slot1PkmnStorage].data, c, sec)
      && back[Slot1SaveBlock2] == RegionBuffer(Chunk(p, m, Slot1SaveBlock2, 0) + Zeros(3 * p.DataSize()), c, sec)
      && back[Hof] == (if m[Hof].security == InvalidSecurity then InitialBuffer(p, Hof)
                       else RegionBuffer(m[Hof].data, c, m[Hof].security))
      && back[TrainerHill] == (if m[TrainerHill].security == InvalidSecurity then InitialBuffer(p, TrainerHill)
                               else RegionBuffer(m[TrainerHill].data, c, m[TrainerHill].security))
      && back[RecordedBattle] == (if m[TrainerHill].security == InvalidSecurity then InitialBuffer(p, RecordedBattle)
                                  else RegionBuffer(m[RecordedBattle].data, c, m[RecordedBattle].security))
      && back[Slot2SaveBlock1] == InitialBuffer(p, Slot2SaveBlock1)
      && back[Slot2SaveBlock2] == InitialBuffer(p, Slot2SaveBlock2)
      && back[Slot2PkmnStorage] == InitialBuffer(p, Slot2PkmnStorage)
  {
    ReadBackSlot1(p, m);
    ReadBackHof(p, m);
    ReadBackTrainerHill(p, m);
    ReadBackRecordedBattle(p, m);
    ReadBackUntouched(p, m, Slot2SaveBlock1);
    ReadBackUntouched(p, m, Slot2SaveBlock2);
    ReadBackUntouched(p, m, Slot2PkmnStorage);
  }
}
