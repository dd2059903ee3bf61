/** The layout constants of the two save formats. The converter switches a set of
    process-wide settings between them; here each format is one immutable value and
    every operation takes the profile it works under. */
module Profiles {

  // Constants common to both formats.
  const SectorCount: nat := 32
  const RogueSaveVersionOffset: nat := 2498
  const PcItemsCount: nat := 50
  const PlayerPartyCountOffset: nat := 0x234
  const FirstPkmnOffset: nat := 0x238
  const FirstPkmnInBoxOffset: nat := 4
  const PkmnBoxStructSize: nat := 80
  const PlayerNameLength: nat := 7
  const TrainerIdLength: nat := 4
  const PartySize: nat := 6
  const TotalBoxes: nat := 10
  const PkmnPerBox: nat := 30
  const ShinyOdds: nat := 655
  /** Number of species of the 1.3.2 format and of the 2.0 format. */
  const SpeciesCountV1: nat := 898
  const SpeciesCountV2: nat := 905
  /** The footer fields every sector ends with: id (2), checksum (2), security (4), counter (4). */
  const FooterFieldsSize: nat := 12

  /** V1 is the 1.3.2 save format, V2 the 2.0 one. */
  datatype Profile = V1 | V2 {

    /** Payload bytes per sector. */
    function DataSize(): nat { if V1? then 3968 else 4084 }

    /** Bytes after the payload: unused padding, then the footer fields. */
    function FooterSize(): nat { if V1? then 128 else 12 }

    function SectorSize(): nat { DataSize() + FooterSize() }

    /** Unused bytes between the payload and the footer fields. */
    function FooterPadding(): nat { FooterSize() - FooterFieldsSize }

    /** Size of a party record (the 80-byte box record plus battle stats). */
    function PkmnStructSize(): nat { if V1? then 100 else 104 }

    function EncryptionKeyOffset(): nat { if V1? then 0xac else 0x4c }

    function MoneyOffset(): nat { FirstPkmnOffset + PartySize * PkmnStructSize() }

    function PcItemsOffset(): nat { MoneyOffset() + 4 + 4 }

    function ItemsOffset(): nat { PcItemsOffset() + PcItemsCount * 4 }

    function BagItemCapacity(): nat { if V1? then 30 + 30 + 16 + 64 + 46 else 450 }

    function DexSeenOffset(): nat { if V1? then 0x3598 else 0x30b4 }

    /** Bytes of each of the two dex bitmasks. */
    function DexSize(): nat { if V1? then 113 else 191 }

    function DexCaughtOffset(): nat { DexSeenOffset() + DexSize() }
  }

  /** Both formats use 4096-byte sectors; V1 pads 116 unused bytes before the footer fields,
      V2 none; the payload sizes differ, which is what lets the version check reject the
      wrong profile. Every field the converter reads lies inside its region: the save block
      regions hold 4 sectors and the box storage 9. */
  lemma ProfileLayout(p: Profile)
    ensures p.SectorSize() == 4096
    ensures p.FooterSize() >= FooterFieldsSize
    ensures p.FooterPadding() == (if p.V1? then 116 else 0)
    ensures V1.DataSize() != V2.DataSize()
    ensures 16 + 1 <= 4 * p.DataSize() && p.EncryptionKeyOffset() + 4 <= 4 * p.DataSize()
    ensures RogueSaveVersionOffset + 2 <= 4 * p.DataSize()
    ensures FirstPkmnOffset + PartySize * p.PkmnStructSize() <= 4 * p.DataSize()
    ensures p.PkmnStructSize() >= PkmnBoxStructSize
    ensures p.MoneyOffset() + 4 <= 4 * p.DataSize()
    ensures p.ItemsOffset() + 4 * p.BagItemCapacity() <= 4 * p.DataSize()
    ensures p.DexCaughtOffset() + p.DexSize() <= 4 * p.DataSize()
    ensures FirstPkmnInBoxOffset + TotalBoxes * PkmnPerBox * PkmnBoxStructSize <= 9 * p.DataSize()
  {
  }
}
