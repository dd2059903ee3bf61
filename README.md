# Emerald Rogue save converter, modelled in Dafny

This project models the core of `pokeemerald-rogue_savconverter.py`. The script reads a
`.sav` image of the Pokémon Emerald Rogue ROM hack and rebuilds its save regions from the
32 flash sectors. It then decodes the trainer, play time, money, bag, Pokédex and Pokémon
records. It can also "tamper" the save (inject money, items, Pokémon, Pokédex flags and a
play time) and write the sectors back. Two save formats exist:

- 1.3.2, with 3968 data bytes per sector;
- 2.0, with 4084 data bytes per sector.

The Python globals that `prepareGlobalsForVersion` switches are one `Profile` value (`V1`
or `V2`), passed to every operation that depends on the format.

The modules follow the script's sections:

- `Bytes`: bytes, `u16`/`u32`, little-endian packing, Python's `xor` on non-negative
  integers, splicing, bit flags, array writes.
- `Profiles`: the two format profiles and their layout constants.
- `Checksums`: the sector checksum and the Pokémon-record checksum.
- `Text`: `decodeString`.
- `SectorStore`: the nine save regions and the sector record. It covers parsing an image
  into regions (`processSavedSector`), `getSectorDesc`, and writing regions back as 32
  sectors (`saveSectors`, `__writeSector`).
- `MonCodec` and `MonLaws`: the 80-byte Pokémon record, its four encrypted 12-byte blocks
  ordered by personality, `createMon`, `serializeMon`, and the laws that connect them.
- `Pokedex`: `pokedexBitmaskToData` and `pokedexDataToBitmask`.
- `ItemBag`: `bagItemsToVersion2`.
- `SaveBag`: the bag slots of SaveBlock1, read and tamper-written.
- `SaveTranscoder`: the SaveBlock2 fields, the party, and the box scan with its clone and
  inject logic.
- `SaveConverter`: money, Pokédex tampering, the whole `processObjects` pass and
  `processSavFile`.

Imperative parts of the script are methods over arrays, such as `setTypes`,
`decryptTypes`, the bag loop, the box scan, the Pokédex marking and the sector loops.
Each method is proved equal to a specification function. The properties, such as round
trips, error conditions and "nothing else changes", are proved as lemmas about those
functions.

Python exceptions become `Err` values of `Outcomes.Result`:

- `struct.error` becomes `StructError`;
- `IndexError` becomes `IndexError`;
- `processObjects` returning `None` (a save whose version word disagrees with the current
  profile) becomes `Err(VersionMismatch)`.

A few behaviours of the script are modelled exactly as written:

- A tamper `minutes` value replaces the reported *hours*, and the minutes byte is written
  back unchanged (lines 761-765).
- `decodeString` raises `IndexError` on byte 239, because its range test is `c > len(chars)`
  (line 133).
- `saveSectors` gives the recorded-battle sector its id only when the *trainer hill*
  security is valid (line 347).
- The Pokédex list written by `pokedexDataToBitmask` comes back shifted by one index (entry
  `k-1` becomes flag `k`), when it is read back by `pokedexBitmaskToData`.

## Model

| member | source | states |
|---|---|---|
| Profiles.ProfileLayout | pokeemerald-rogue_savconverter.py:49-92 | Both profiles fill a 4096-byte sector: 1.3.2 has 116 footer padding bytes and 2.0 none. Their data sizes differ. Every SaveBlock1, SaveBlock2 and storage field the pass touches lies inside its region. |
| Checksums.CalculateChecksum | pokeemerald-rogue_savconverter.py:139-154 | The loop computes the sector checksum: the 32-bit little-endian word sum, folded into 16 bits. |
| Checksums.CalculateChecksumBox | pokeemerald-rogue_savconverter.py:156-173 | The loop computes the record checksum: the 16-bit word sum, truncated to 16 bits. |
| Checksums.SectorChecksumIgnoresTail | pokeemerald-rogue_savconverter.py:139-154 | The sector checksum reads only the first `4*(size//4)` bytes. Bytes past them, and a trailing partial word, do not change it. |
| Checksums.BoxChecksumIgnoresTail | pokeemerald-rogue_savconverter.py:156-173 | The record checksum reads only the first `2*(size//2)` bytes. |
| Checksums.Sum16Concat | pokeemerald-rogue_savconverter.py:156-173 | The 16-bit word sum is additive over concatenation at an even boundary. |
| Checksums.ChecksumsDiffer | pokeemerald-rogue_savconverter.py:139-173 | The two checksums are different functions: an 8-byte input gives 1 for one and 0 for the other. |
| Text.DecodeString | pokeemerald-rogue_savconverter.py:119-137 | The loop computes the decoding. Bytes outside the table become spaces, the byte one past the table raises `IndexError`, and the result is stripped of spaces. |
| Text.TrimStart | pokeemerald-rogue_savconverter.py:137 | The result is a suffix of the input that does not start with a space, and only spaces were removed. |
| Text.TrimEnd | pokeemerald-rogue_savconverter.py:137 | The result is a prefix of the input that does not end with a space, and only spaces were removed. |
| Text.StripTrims | pokeemerald-rogue_savconverter.py:137 | `strip` keeps exactly the infix between the leading and the trailing runs of spaces. |
| Text.BlankDecodesEmpty | pokeemerald-rogue_savconverter.py:131-137 | A name made only of bytes below the table decodes to the empty string. |
| Text.DecodeCharsAt | pokeemerald-rogue_savconverter.py:131-136 | Each output character depends only on the byte at the same position. |
| SectorStore.ParsePackSector | pokeemerald-rogue_savconverter.py:71-92 | Packing a sector record and unpacking the frame gives the record back. |
| SectorStore.PackParseSector | pokeemerald-rogue_savconverter.py:71-92 | Unpacking a frame whose padding is zero and packing it again gives the frame back. |
| SectorStore.ReadFramesOk | pokeemerald-rogue_savconverter.py:260-270 | The file loop reads at most 32 whole frames, or stops at the end of the image. Record j is the unpacking of frame j. |
| SectorStore.ReadFramesErr | pokeemerald-rogue_savconverter.py:265-270 | Reading fails with `struct.error` exactly when the image ends inside a frame among the first 32. |
| SectorStore.GetSectorDescTable | pokeemerald-rogue_savconverter.py:179-221 | Ids 0-31 and 65535 have a description and every other id is unknown. Known ids have distinct descriptions. |
| SectorStore.TargetTable | pokeemerald-rogue_savconverter.py:277-294 | Only ids 0-13 and 28-31 are placed. Each goes to a distinct chunk inside its region. Slot 2 is never a target. |
| SectorStore.InitialRegions | pokeemerald-rogue_savconverter.py:249-259 | The regions start zeroed, with counter 0 and security 0xFFFFFFFF. |
| SectorStore.MergeSectorCases | pokeemerald-rogue_savconverter.py:298-301 | A placed sector whose counter is at least the region's replaces its chunk, counter and security. An older sector or an unplaced id leaves the regions unchanged. |
| SectorStore.MergeSectorEffect | pokeemerald-rogue_savconverter.py:298-301 | Byte by byte, an accepted sector changes exactly its chunk of its own region. |
| SectorStore.ProcessSavedSector | pokeemerald-rogue_savconverter.py:223-305 | The loop leaves the regions equal to folding the merge over the first 32 records, from the initial regions. |
| SectorStore.AssembleAppend | pokeemerald-rogue_savconverter.py:261-302 | Folding over a concatenation is folding over the first part, then over the second. |
| SectorStore.AssembleUntouched | pokeemerald-rogue_savconverter.py:298-301 | A region that no record targets keeps its initial contents. |
| SectorStore.Slot2StaysEmpty | pokeemerald-rogue_savconverter.py:277-301 | The three slot-2 regions always stay zeroed with counter 0 and invalid security. |
| SectorStore.NewerCopyWins | pokeemerald-rogue_savconverter.py:298-301 | Two copies of one sector with different counters give the same regions in either file order. |
| SectorStore.NewerCopyKept | pokeemerald-rogue_savconverter.py:298-301 | After both copies, the region holds the newer copy's counter and data. |
| SectorStore.AssembleWritesChunk | pokeemerald-rogue_savconverter.py:298-301 | When counters do not exceed the run's counter, the last record for a chunk is what the chunk holds. |
| SectorStore.WriteSector | pokeemerald-rogue_savconverter.py:307-311 | The written record carries the data, id, security and counter it was given, with the sector checksum of the data. |
| SectorStore.SaveSectors | pokeemerald-rogue_savconverter.py:313-351 | The writes produce the saved image. That image is 32 sectors stamped with the next even counter, with slot 2 blanked and HOF, trainer hill and recorded battle given ids only when secured. It fails when the counter no longer fits 32 bits. |
| SectorStore.SavedImageStamped | pokeemerald-rogue_savconverter.py:317-320 | Every sector of a saved image is stamped with the successor of SaveBlock2's counter, bumped to even. |
| SectorStore.SavedTargetsDistinct | pokeemerald-rogue_savconverter.py:324-351 | Distinct written sectors never target the same chunk. |
| SectorStore.SaveThenRead | pokeemerald-rogue_savconverter.py:223-351 | Reading back a saved image restores SaveBlock1 and storage in full, and SaveBlock2's first sector. The secured HOF and trainer hill regions come back, and the recorded battle comes back under the trainer hill's gate. Slot 2 comes back empty. |
| SectorStore.ReadBackRecordedBattle | pokeemerald-rogue_savconverter.py:347-351 | The recorded-battle region survives a save and a re-read only if the trainer-hill region is secured. |
| SectorStore.ReadBackSaveBlock2 | pokeemerald-rogue_savconverter.py:325 | Only the first sector of SaveBlock2 is written, so its other three chunks come back zero. |
| MonCodec.Order | pokeemerald-rogue_savconverter.py:379-403 | The block order chosen by `personality % 24` is a permutation of the four slots. |
| MonCodec.GetTypes | pokeemerald-rogue_savconverter.py:372-409 | Four 12-byte blocks are read, in the order the personality selects. |
| MonCodec.SetTypes | pokeemerald-rogue_savconverter.py:412-444 | The array ends up holding the four blocks at the slots the personality selects. The header and tail are unchanged. |
| MonCodec.GetTypesArranged | pokeemerald-rogue_savconverter.py:372-444 | Reading the blocks after setting them gives the same blocks. |
| MonCodec.ArrangedGetTypes | pokeemerald-rogue_savconverter.py:372-444 | Setting the blocks that were read from a record reproduces that record's 48 data bytes. |
| MonCodec.DecryptTypes | pokeemerald-rogue_savconverter.py:446-457 | The loop XORs each of the three 32-bit words with the key. |
| MonCodec.XorBlockWord | pokeemerald-rogue_savconverter.py:446-457 | Word i of the decrypted block is word i of the input, XORed with the key. |
| MonCodec.XorBlockTwice | pokeemerald-rogue_savconverter.py:446-457 | Decrypting twice with one key gives the block back. |
| MonCodec.CreateMonOutcome | pokeemerald-rogue_savconverter.py:459-530 | `createMon` succeeds exactly on 80 or more bytes whose two names decode. Input shorter than 8 bytes raises `struct.error`, and so does input of 28 to 79 bytes whose names decode. Every failure is `struct.error` or `IndexError`; between 8 and 27 bytes the single-byte reads at 18, 19 and 27 can raise `IndexError` instead. On success the record holds its personality, owner id, key, decrypted blocks and names. |
| MonCodec.RemapTypes | pokeemerald-rogue_savconverter.py:550-562 | The method yields the remapped record for the target version. |
| MonCodec.SealSlots | pokeemerald-rogue_savconverter.py:567-570 | The four blocks of the buffer are encrypted in place with the key. |
| MonCodec.SerializeMon | pokeemerald-rogue_savconverter.py:532-571 | Serialising produces the specified image and updated record: the header, a checksum over the plain blocks, and blocks encrypted with the rebased key. |
| MonLaws.HeaderFields | pokeemerald-rogue_savconverter.py:536-548 | The serialised header holds the personality, the new owner id, both names, language, egg flag, markings and checksum at their offsets. |
| MonLaws.RemapType0Fields | pokeemerald-rogue_savconverter.py:552-558 | Moving a 1.3.2 record to 2.0 keeps species up to 898 and shifts those above it by 7. It clears the unused half-word and keeps the rest of block 0. |
| MonLaws.RemapType3Fields | pokeemerald-rogue_savconverter.py:559-562 | A shiny record gains bit 0 of the ribbon word. No other bit of the block changes. |
| MonLaws.RebasedKey | pokeemerald-rogue_savconverter.py:537-539 | Rebasing the key on a new owner gives the new owner's id XORed with the personality. |
| MonLaws.SerializedChecksum | pokeemerald-rogue_savconverter.py:564-570 | Decrypting the serialised blocks gives the plain record's 48 data bytes. |
| MonLaws.SerializedTypes | pokeemerald-rogue_savconverter.py:564-570 | Decrypting the serialised image at the personality's slots gives the record's blocks. |
| MonLaws.SerializedDecodes | pokeemerald-rogue_savconverter.py:459-574 | `createMon` of a serialised record succeeds. It has the new owner, the rebased key, the same blocks, names and fields, the language as 2.0 reads it, and a checksum that matches its blocks. |
| MonLaws.SerializedRecord | pokeemerald-rogue_savconverter.py:459-574 | Re-serialising a decoded record for its own owner returns that record. It rebuilds the input bytes with the language byte and checksum normalised. |
| MonLaws.SerializedRecordExact | pokeemerald-rogue_savconverter.py:459-574 | For a 1.3.2 record whose stored checksum is right, decoding then serialising gives back exactly the 80 input bytes. |
| Pokedex.DexData | pokeemerald-rogue_savconverter.py:576-613 | The status list is produced exactly when the seen mask is no longer than the caught mask. Its length is 8 statuses per seen byte for 1.3.2, plus the 2.0 extra length. |
| Pokedex.BitmaskToData | pokeemerald-rogue_savconverter.py:576-613 | The two loops compute the status list: 2 for caught, 1 for seen only, 0 otherwise. In 1.3.2 the caught bit is checked after the seen bit. |
| Pokedex.SetFlag | pokeemerald-rogue_savconverter.py:636-643 | Setting a flag changes one byte, and exactly flag i becomes set in addition to the old flags. |
| Pokedex.MarkListed | pokeemerald-rogue_savconverter.py:632-638 | Flag k is set in the seen or caught mask exactly when it was set before, or list entry k-1 is 1 or 2. It raises `IndexError` exactly when the list or a mask is too short. |
| Pokedex.MarkShinies | pokeemerald-rogue_savconverter.py:639-643 | Each shiny of a species up to 898 sets its flag in both masks. It raises `IndexError` when a mask is too short. |
| Pokedex.ClearedByteZero | pokeemerald-rogue_savconverter.py:629-630 | Clearing byte 0 removes flags 0-7 and keeps every other flag. |
| Pokedex.DataToBitmask | pokeemerald-rogue_savconverter.py:615-647 | 1.3.2 leaves both masks alone. For 2.0 the masks become the encoded masks, with their flags exactly as listed plus shinies over the old flags above 7. It fails with `IndexError` exactly when the list or masks are too short. |
| Pokedex.ProfileMasksFit | pokeemerald-rogue_savconverter.py:631-644 | With the profile's mask size, encoding fits exactly when the list has at least 898 entries. |
| Pokedex.EncodedStatus | pokeemerald-rogue_savconverter.py:576-647 | Reading the encoded masks back reports 2 where the flag is caught after encoding, 1 where it is only seen, and 0 elsewhere. |
| Pokedex.ListedComesBackShifted | pokeemerald-rogue_savconverter.py:576-647 | Entry k-1 of a written list is read back as status k, unless a shiny or an old flag overrides it. |
| Pokedex.ShinyComesBackCaught | pokeemerald-rogue_savconverter.py:639-643 | Any shiny species up to 898 that is passed to the encoder is read back as caught. |
| ItemBag.ShiftIds | pokeemerald-rogue_savconverter.py:680-682 | The loop shifts every id above 27 by 11 and keeps quantities. |
| ItemBag.BagItemsToVersion2 | pokeemerald-rogue_savconverter.py:649-697 | The input list is shifted in place, and the result is the grouped list: items pocket then ball pocket. |
| ItemBag.GroupedLaws | pokeemerald-rogue_savconverter.py:683-688 | The result is the items-pocket entries (ids 29-256), then the ball entries (ids up to 28). Each part is sorted by id and lies in its pocket, and together they are a permutation of the kept entries. |
| ItemBag.SortByIdStable | pokeemerald-rogue_savconverter.py:683 | The sort is stable: entries with one id keep their order. |
| ItemBag.ConvertedFrom | pokeemerald-rogue_savconverter.py:680-688 | Every converted entry comes from a shifted input entry with an original id up to 245. It is a ball exactly when its id is at most 27. |
| ItemBag.SortKeepsItems | pokeemerald-rogue_savconverter.py:683 | Sorting yields a sorted permutation of the list. |
| SaveBag.UnsealSealed | pokeemerald-rogue_savconverter.py:817-827 | A quantity sealed with the full key and masked to 16 bits unseals, with the key's low half, to the quantity modulo 65536. |
| SaveBag.ReadBag | pokeemerald-rogue_savconverter.py:825-829 | The untampered loop reports every non-empty slot of the bag with its unsealed quantity. |
| SaveBag.WriteBag | pokeemerald-rogue_savconverter.py:812-824 | The tamper loop writes the first list entries into the slots and empties the rest, reporting the entries written. It raises `struct.error` exactly when one of those ids does not fit 16 bits. |
| SaveBag.BagImageFrame | pokeemerald-rogue_savconverter.py:812-824 | Writing the bag changes no byte outside the bag slots. |
| SaveBag.BagRoundTrip | pokeemerald-rogue_savconverter.py:811-829 | Reading the written bag gives the injected entries that have non-zero ids, with quantities modulo 65536. |
| SaveTranscoder.PlayTime | pokeemerald-rogue_savconverter.py:756-765 | A tamper `hours` is reported and stored, and `struct.error` is raised exactly when it is outside 0-65535. A tamper `minutes` is reported as the hours. The minutes are the stored byte, and nothing else in SaveBlock2 changes. |
| SaveTranscoder.TrainerOf | pokeemerald-rogue_savconverter.py:751-755 | The trainer is reported exactly when the eight name bytes decode. The report holds the stripped name, the id word and bit 0 of the gender byte. |
| SaveTranscoder.AsWrittenPartyWindowFails | pokeemerald-rogue_savconverter.py:777 | The slice the code passes for party slot 1 and later is shorter than 80 bytes, so `createMon` fails on it. |
| SaveTranscoder.PartyWindowIsRecord | pokeemerald-rogue_savconverter.py:775-777 | The corrected window is the 80-byte prefix of record i and lies before record i+1. For slot 0 it equals the slice as written. |
| SaveTranscoder.PartyEntries | pokeemerald-rogue_savconverter.py:772-780 | The party is read exactly when every one of the counted records decodes. Entry i is record i, read through the corrected 80-byte window of the Findings row, in box 0 at position i+1. |
| SaveTranscoder.ReadParty | pokeemerald-rogue_savconverter.py:772-780 | The loop collects the decoded party, or the first error. |
| SaveTranscoder.CollectedEntries | pokeemerald-rogue_savconverter.py:772-780 | Collecting succeeds exactly when every decode succeeded, and entries keep their order and positions. |
| SaveTranscoder.PartyRaises | pokeemerald-rogue_savconverter.py:772-780 | A failing party read is a Python exception, never a version mismatch. |
| SaveTranscoder.ReadBoxes | pokeemerald-rogue_savconverter.py:781-806 | The box loop yields the specified scan: occupied slots decoded, empty ones cloned or injected under the tamper. The storage array ends as specified. |
| SaveTranscoder.VisitKeeps | pokeemerald-rogue_savconverter.py:783-806 | Visiting slot k changes no other slot and no occupied slot, and leaves the bytes around the boxes alone. With no tamper nothing is written. |
| SaveTranscoder.ScanKeeps | pokeemerald-rogue_savconverter.py:781-806 | After the scan, every slot that was occupied keeps its bytes and the unvisited slots are unchanged. The insert counter and the list only grow. |
| SaveTranscoder.UntamperedBoxes | pokeemerald-rogue_savconverter.py:781-806 | Without a tamper the scan leaves the storage region unchanged. |
| SaveTranscoder.BoxesRaise | pokeemerald-rogue_savconverter.py:781-806 | A failing box scan is a Python exception, never a version mismatch. |
| SaveConverter.WriteMoney | pokeemerald-rogue_savconverter.py:808-810 | A positive tamper amount is stored sealed with the key. It raises `struct.error` exactly when it is 2^32 or more, and leaves the buffer unchanged then. |
| SaveConverter.MoneyRoundTrip | pokeemerald-rogue_savconverter.py:767-810 | Reading the money back after the tamper write gives the amount written. |
| SaveConverter.DexOf | pokeemerald-rogue_savconverter.py:843 | Reading the Pokédex from SaveBlock1 always succeeds, with the profile's length. |
| SaveConverter.FillDex | pokeemerald-rogue_savconverter.py:831-834 | The loop sets every byte of both masks to 0xFF. |
| SaveConverter.FullDexAllCaught | pokeemerald-rogue_savconverter.py:831-843 | After `fullPokedex`, every status covered by the masks reads as caught and the rest as unseen. |
| SaveConverter.MasksWritten | pokeemerald-rogue_savconverter.py:836-842 | Writing both masks back stores exactly those masks, and no byte outside the Pokédex changes. |
| SaveConverter.TamperDex | pokeemerald-rogue_savconverter.py:835-842 | The 2.0 Pokédex tamper succeeds exactly when the list has at least 898 entries. Otherwise it raises `IndexError`. On success both masks hold the encoded flags. |
| SaveConverter.TamperError | pokeemerald-rogue_savconverter.py:808-842 | The SaveBlock1 tamper writes fail exactly when the money, an item id or the 2.0 Pokédex list does not fit. |
| SaveConverter.WriteSb1 | pokeemerald-rogue_savconverter.py:808-834 | The money, bag and full-Pokédex writes report the tampered or stored money and the injected items, and leave SaveBlock1 as specified. |
| SaveConverter.Sb1Pass | pokeemerald-rogue_savconverter.py:808-842 | All SaveBlock1 work of the pass produces the specified result: the reported money and items, and the buffer as written. |
| SaveConverter.ReplacedWellFormed | pokeemerald-rogue_savconverter.py:746-748 | The pass updates the three slot-1 regions in place: they end up holding the new buffers and every other region is unchanged. |
| SaveConverter.ProcessObjects | pokeemerald-rogue_savconverter.py:699-855 | The method yields the specified result. That is the snapshot (version, party and box records, items, Pokédex, trainer, play time, money, key) with the regions after the tamper writes, or the error the script raises or its `None`. Party records are read through the corrected 80-byte window of the Findings row. |
| SaveConverter.ConvertedSb1 | pokeemerald-rogue_savconverter.py:746-855 | SaveBlock1 of the output holds the SaveBlock1 writes. The reported key and records are those of the front half of the pass. |
| SaveConverter.ReportedReadsBack | pokeemerald-rogue_savconverter.py:767-829 | Reading the output's SaveBlock1 again with the reported key gives the reported money. The bag gives the reported items, which are the non-empty ones with 16-bit quantities after a tamper. |
| SaveConverter.UntamperedWritesNothing | pokeemerald-rogue_savconverter.py:699-855 | Without a tamper the pass leaves every region unchanged. |
| SaveConverter.FullDexReported | pokeemerald-rogue_savconverter.py:831-843 | With `fullPokedex` and no 2.0 list, the reported Pokédex is all caught over the masks, and unseen after them. |
| SaveConverter.ListedDexReported | pokeemerald-rogue_savconverter.py:835-843 | With a 2.0 list, the reported status of species k is list entry k-1, unless a shiny or an old flag overrides it. |
| SaveConverter.FrontRaises | pokeemerald-rogue_savconverter.py:740-806 | Once the version matches, any failure of the SaveBlock2, party or box stages is a Python exception. |
| SaveConverter.MismatchIsVersion | pokeemerald-rogue_savconverter.py:729-739 | The pass answers `None` exactly when the version word of SaveBlock1 names the other format. |
| SaveConverter.LoadRegions | pokeemerald-rogue_savconverter.py:223-305 | Loading reads the frames and assembles the regions, or raises `struct.error` on a truncated frame. |
| SaveConverter.ProcessSavFile | pokeemerald-rogue_savconverter.py:876-889 | The method yields the specified result: the 1.3.2 reading, or on `None` the 2.0 reading, with exceptions passed on. |
| SaveConverter.SavFileFormats | pokeemerald-rogue_savconverter.py:876-889 | A processed file was read as 1.3.2 exactly when its 1.3.2 SaveBlock1 declares 1.3.2, and then it has objects. Otherwise it was read as 2.0, with no objects exactly when the 2.0 SaveBlock1 also declares 1.3.2. |

## Left out

- File I/O: the `.sav` image is a byte-sequence parameter, and the written file is the sequence of sector records returned. `open`, `read` and `write` are not modelled.
- `print`, `printMon`, `printObjects`, `main` and its `argparse` handling: these only format output or parse the command line.
- `backupFileIfNeeded`: it copies files with `shutil`, which is outside the codec.
- `struct` byte order: the sector frame uses native byte order in the script, and the model fixes it as little-endian.
- Global state: `prepareGlobalsForVersion` mutates module globals, and the model passes the resulting `Profile` value instead.
- Buffers after an exception: when `processObjects` raises part-way, the script has already changed some regions in place. The model states no contents for that case.
- SaveConverter.ProcessObjects: parties of two or more Pokémon are read with the corrected 80-byte window (see Findings), where the script as written raises `struct.error` at line 777. `ProcessObjects`, `ProcessSavFile` and `SavFileFormats` therefore follow the corrected window, not the script, for such saves. The as-written behaviour is stated only by `SaveTranscoder.AsWrittenPartyWindowFails`.
- SaveConverter.ProcessObjects: it requires every injected Pokémon record to be well-formed (`PoolReady`): names of 10 and 7 bytes and four 12-byte blocks. The script does not check this. A field of another length is not an error there: the slice assignments of `serializeMon` silently resize its 80-byte buffer, and the record written into the storage region then has the wrong length and shifts every later slot. Records in a real pool come from `createMon`, which always yields well-formed ones.
- SaveConverter.ProcessObjects: the tamper is an `Option`, so an empty tamper dictionary (falsy in `if tamperObject:`) is not distinguished from a present one.
- The tamper dictionary's counters `lastInsertedItem` and `lastInsertedPkmn`, and the `cloneFirstinParty` flag, are local state of the pass. The model does not write them back into the caller's dictionary.
- SaveConverter.Sb1Pass: the script tests `if tamperObject:` on every slot of the bag loop, and the model tests it once, choosing `SaveBag.ReadBag` or `SaveBag.WriteBag` before the loop. The tamper cannot change inside the loop, so the result is the same.
- SaveConverter.MismatchIsVersion: `processObjects` returning `None` is modelled as the error value `VersionMismatch`.

## Findings

| source | as written | input that shows it | evidently intended | confidence | as-written member | corrected member |
|---|---|---|---|---|---|---|
| pokeemerald-rogue_savconverter.py:777 | party slot i is sliced from `FIRSTPKMN_OFFSET+i*PKMN_STRUCT_SIZE` to `FIRSTPKMN_OFFSET+(i+1)*PKMNBOX_STRUCT_SIZE` | any save with two or more party Pokémon: slot 1 gets 60 bytes (1.3.2) or 56 bytes (2.0), and `createMon` raises `struct.error` | the 80 box-format bytes at the start of party record i | not executed | SaveTranscoder.AsWrittenPartyWindowFails | SaveTranscoder.PartyWindowIsRecord |
