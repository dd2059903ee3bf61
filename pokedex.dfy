/** The pokedex codec: two bitmasks, seen and caught, with bit k of a mask at bit k % 8 of
    byte k / 8, against a list with one status per bit (0 not seen, 1 seen, 2 caught). On a
    2.0 save a shiny that was caught is marked by setting its bit in both masks. */
module Pokedex {
  import opened Bytes
  import opened Profiles
  import opened Outcomes
  import opened MonCodec

  /** Bit k of a bitmask. */
  predicate Flag(mask: seq<byte>, k: nat)
    requires k < 8 * |mask|
  {
    BitSet(mask[k / 8], k % 8)
  }

  /** Bit j of byte i is bit `8 * i + j` of the mask. */
  lemma FlagIndex(i: nat, j: nat)
    requires j < 8
    ensures (8 * i + j) / 8 == i && (8 * i + j) % 8 == j
  {
  }

  /** A cleared byte has no bit set. */
  lemma {:induction false} NoBitOfZero(j: nat)
    ensures !BitSet(0, j)
  {
    if j > 0 {
      NoBitOfZero(j - 1);
    }
  }

  // ---------------------------------------------------------------------------
  // Bitmasks to statuses
  // ---------------------------------------------------------------------------

  /** The status `pokedexBitmaskToData` gives bit k: 2 when the caught bit is set, 1 when
      only the seen bit is, 0 otherwise. */
  function Status(seen: seq<byte>, caught: seq<byte>, k: nat): nat
    requires k < 8 * |seen| && k < 8 * |caught|
  {
    if Flag(caught, k) then 2 else if Flag(seen, k) then 1 else 0
  }

  /** Length of the status list: eight per seen byte on 1.3.2 saves; on 2.0 saves one per
      seen byte plus eight per caught byte, of which only the first `8 * |seen|` are set. */
  function DexLength(seen: seq<byte>, caught: seq<byte>, version: Profile): nat
  {
    if version.V1? then 8 * |seen| else |seen| + 8 * |caught|
  }

  /** What `pokedexBitmaskToData` returns: one status per bit of the seen mask, zeros after
      them; a caught mask shorter than the seen mask makes the loop index past its end. */
  function DexData(seen: seq<byte>, caught: seq<byte>, version: Profile): (r: Result<seq<nat>>)
    ensures r.Ok? <==> |seen| <= |caught|
    ensures r.Ok? ==> |r.value| == DexLength(seen, caught, version) >= 8 * |seen|
  {
    if |caught| < |seen| then Err(IndexError)
    else Ok(seq(DexLength(seen, caught, version), (k: int) => if 0 <= k < 8 * |seen| then Status(seen, caught, k) else 0))
  }

  /** `pokedexBitmaskToData`: the byte loop and the bit loop. On a 1.3.2 save a set seen bit
      writes 1 and a set caught bit then writes 2 over it; on a 2.0 save the caught bit is
      tested first. Both give the same status. */
  method BitmaskToData(seen: seq<byte>, caught: seq<byte>, version: Profile) returns (r: Result<seq<nat>>)
    ensures r == DexData(seen, caught, version)
  {
    var n := DexLength(seen, caught, version);
    var pokedex := new nat[n](_ => 0);
    var i := 0;
    while i < |seen|
      invariant i <= |seen| && i <= |caught|
      invariant forall k :: 0 <= k < n ==> pokedex[k] == if k < 8 * i then Status(seen, caught, k) else 0
    {
      if i >= |caught| {
        return Err(IndexError);
      }
      var j := 0;
      while j < 8
        invariant j <= 8
        invariant forall k :: 0 <= k < n ==> pokedex[k] == if k < 8 * i + j then Status(seen, caught, k) else 0
      {
        FlagIndex(i, j);
        if version.V1? {
          if BitSet(seen[i], j) {
            pokedex[8 * i + j] := 1;
          }
          if BitSet(caught[i], j) {
            pokedex[8 * i + j] := 2;
          }
        } else {
          if BitSet(caught[i], j) {
            pokedex[8 * i + j] := 2;
          } else if BitSet(seen[i], j) {
            pokedex[8 * i + j] := 1;
          }
        }
        j := j + 1;
      }
      i := i + 1;
    }
    assert |caught| >= |seen|;
    r := Ok(pokedex[..]);
    assert r.value == DexData(seen, caught, version).value;
  }

  // ---------------------------------------------------------------------------
  // Statuses to bitmasks
  // ---------------------------------------------------------------------------

  /** Mon t of the list is a shiny of species k, and k is a 1.3.2 species. */
  predicate ShinyOf(mons: seq<Mon>, t: nat, k: nat)
    requires t < |mons|
  {
    mons[t].shiny && mons[t].species == k && k <= SpeciesCountV1
  }

  /** One of the first n mons is a shiny of species k. */
  predicate MarkedShiny(mons: seq<Mon>, n: nat, k: nat)
    requires n <= |mons|
  {
    exists t :: 0 <= t < n && ShinyOf(mons, t, k)
  }

  /** The status list gives species i (1..898) status `s`, reading it at index i - 1. */
  predicate Listed(pokedex: seq<int>, i: nat, s: int)
  {
    1 <= i <= SpeciesCountV1 && i - 1 < |pokedex| && pokedex[i - 1] == s
  }

  /** The species loop succeeds when the list covers species 1..898 and every bit it sets
      lies inside its mask. */
  predicate ListedFits(pokedex: seq<int>, seenSize: nat, caughtSize: nat)
  {
    && |pokedex| >= SpeciesCountV1
    && (forall i :: 1 <= i <= SpeciesCountV1 && pokedex[i - 1] == 1 ==> i / 8 < seenSize)
    && (forall i :: 1 <= i <= SpeciesCountV1 && pokedex[i - 1] == 2 ==> i / 8 < caughtSize)
  }

  /** The shiny loop succeeds when the bits of every shiny 1.3.2 species lie inside both
      masks. */
  predicate ShiniesFit(mons: seq<Mon>, seenSize: nat, caughtSize: nat)
  {
    forall t :: 0 <= t < |mons| && mons[t].shiny && mons[t].species <= SpeciesCountV1 ==>
      mons[t].species / 8 < seenSize && mons[t].species / 8 < caughtSize
  }

  /** The 2.0 encoding succeeds when both masks have byte 0 and both loops succeed. */
  predicate Fits(pokedex: seq<int>, mons: seq<Mon>, seenSize: nat, caughtSize: nat)
  {
    seenSize > 0 && caughtSize > 0 && ListedFits(pokedex, seenSize, caughtSize) && ShiniesFit(mons, seenSize, caughtSize)
  }

  /** Bit k of the seen mask after the 2.0 encoding: set when it was set outside byte 0,
      when species k is listed as seen, or when a shiny of species k is in the list. */
  predicate SeenAfter(old0: seq<byte>, pokedex: seq<int>, mons: seq<Mon>, k: nat)
    requires k < 8 * |old0|
  {
    (k >= 8 && Flag(old0, k)) || Listed(pokedex, k, 1) || MarkedShiny(mons, |mons|, k)
  }

  /** Bit k of the caught mask after the 2.0 encoding: the same with status 2. */
  predicate CaughtAfter(old0: seq<byte>, pokedex: seq<int>, mons: seq<Mon>, k: nat)
    requires k < 8 * |old0|
  {
    (k >= 8 && Flag(old0, k)) || Listed(pokedex, k, 2) || MarkedShiny(mons, |mons|, k)
  }

  /** The n-byte mask whose bit k is `bit(k)`. */
  function MaskOf(n: nat, bit: nat -> bool): (mask: seq<byte>)
    ensures |mask| == n
  {
    seq(n, i requires 0 <= i < n => PackByte(seq(8, j requires 0 <= j < 8 => bit(8 * i + j))))
  }

  /** Bit k of `MaskOf(n, bit)` is `bit(k)`. */
  lemma MaskFlags(n: nat, bit: nat -> bool)
    ensures forall k :: 0 <= k < 8 * n ==> (Flag(MaskOf(n, bit), k) <==> bit(k))
  {
    forall k | 0 <= k < 8 * n
      ensures Flag(MaskOf(n, bit), k) <==> bit(k)
    {
      var i, j := k / 8, k % 8;
      var bits := seq(8, j requires 0 <= j < 8 => bit(8 * i + j));
      assert MaskOf(n, bit)[i] == PackBits(bits);
      PackedBit(bits, j);
    }
  }

  /** A mask is determined by its bits. */
  lemma MaskOfFlags(mask: seq<byte>, bit: nat -> bool)
    requires forall k :: 0 <= k < 8 * |mask| ==> (Flag(mask, k) <==> bit(k))
    ensures mask == MaskOf(|mask|, bit)
  {
    var built := MaskOf(|mask|, bit);
    MaskFlags(|mask|, bit);
    assert Pow2(8) == 0x100;
    forall i | 0 <= i < |mask|
      ensures mask[i] == built[i]
    {
      forall j | 0 <= j < 8
        ensures BitSet(mask[i], j) <==> BitSet(built[i], j)
      {
        FlagIndex(i, j);
        assert Flag(mask, 8 * i + j) <==> Flag(built, 8 * i + j);
      }
      SameBits(mask[i], built[i], 8);
    }
  }

  /** `SeenAfter` as a bit function, false past the mask. */
  function SeenBits(seen0: seq<byte>, pokedex: seq<int>, mons: seq<Mon>): nat -> bool
  {
    (k: nat) => k < 8 * |seen0| && SeenAfter(seen0, pokedex, mons, k)
  }

  /** `CaughtAfter` as a bit function, false past the mask. */
  function CaughtBits(caught0: seq<byte>, pokedex: seq<int>, mons: seq<Mon>): nat -> bool
  {
    (k: nat) => k < 8 * |caught0| && CaughtAfter(caught0, pokedex, mons, k)
  }

  /** The seen mask the 2.0 encoding leaves on `seen0`. */
  function EncodedSeen(seen0: seq<byte>, pokedex: seq<int>, mons: seq<Mon>): (seen: seq<byte>)
    ensures |seen| == |seen0|
    ensures forall k :: 0 <= k < 8 * |seen| ==> (Flag(seen, k) <==> SeenAfter(seen0, pokedex, mons, k))
  {
    MaskFlags(|seen0|, SeenBits(seen0, pokedex, mons));
    MaskOf(|seen0|, SeenBits(seen0, pokedex, mons))
  }

  /** The caught mask the 2.0 encoding leaves on `caught0`. */
  function EncodedCaught(caught0: seq<byte>, pokedex: seq<int>, mons: seq<Mon>): (caught: seq<byte>)
    ensures |caught| == |caught0|
    ensures forall k :: 0 <= k < 8 * |caught| ==> (Flag(caught, k) <==> CaughtAfter(caught0, pokedex, mons, k))
  {
    MaskFlags(|caught0|, CaughtBits(caught0, pokedex, mons));
    MaskOf(|caught0|, CaughtBits(caught0, pokedex, mons))
  }

  /** `mask[i // 8] |= 1 << (i % 8)`: bit i is set and no other bit changes. */
  method SetFlag(mask: array<byte>, i: nat)
    requires i < 8 * mask.Length
    modifies mask
    ensures mask[..] == old(mask[..])[i / 8 := SetByteBit(old(mask[i / 8]), i % 8)]
    ensures forall k :: 0 <= k < 8 * mask.Length ==> (Flag(mask[..], k) <==> k == i || Flag(old(mask[..]), k))
  {
    ghost var before := mask[..];
    mask[i / 8] := SetByteBit(mask[i / 8], i % 8);
    forall k | 0 <= k < 8 * mask.Length
      ensures Flag(mask[..], k) <==> k == i || Flag(before, k)
    {
      SetBitEffect(before[i / 8], i % 8, k % 8);
      if k / 8 == i / 8 {
        assert k % 8 == i % 8 <==> k == i;
      }
    }
  }

  /** `pokedexDataToBitmask`. A 1.3.2 save keeps both masks. A 2.0 save clears byte 0 of
      both masks, sets the seen bit of every species 1..898 listed as 1 and the caught bit
      of every one listed as 2, then both bits of every shiny 1.3.2 species among `mons`.
      Bits are only ever set, apart from byte 0. */
  method DataToBitmask(pokedex: seq<int>, mons: seq<Mon>, seen: array<byte>, caught: array<byte>, version: Profile)
    returns (r: Result<()>)
    requires seen != caught
    modifies seen, caught
    ensures version.V1? ==> r.Ok? && seen[..] == old(seen[..]) && caught[..] == old(caught[..])
    ensures version.V2? ==> (r.Ok? <==> Fits(pokedex, mons, seen.Length, caught.Length))
    ensures r.Err? ==> r.error == IndexError
    ensures version.V2? && r.Ok? ==> seen[..] == EncodedSeen(old(seen[..]), pokedex, mons)
    ensures version.V2? && r.Ok? ==> caught[..] == EncodedCaught(old(caught[..]), pokedex, mons)
  {
    if version.V1? {
      return Ok(());
    }
    ghost var seen0, caught0 := seen[..], caught[..];
    if seen.Length == 0 || caught.Length == 0 {
      return Err(IndexError);
    }
    seen[0] := 0;
    caught[0] := 0;
    ClearedByteZero(seen0, seen[..]);
    ClearedByteZero(caught0, caught[..]);
    r := MarkListed(pokedex, seen, caught);
    if r.Err? {
      return;
    }
    r := MarkShinies(mons, seen, caught);
    if r.Ok? {
      MaskOfFlags(seen[..], SeenBits(seen0, pokedex, mons));
      MaskOfFlags(caught[..], CaughtBits(caught0, pokedex, mons));
    }
  }

  /** The species loop of `pokedexDataToBitmask`: species i of 1..898 is read at index
      i - 1; status 1 sets its seen bit, status 2 its caught bit. */
  method MarkListed(pokedex: seq<int>, seen: array<byte>, caught: array<byte>) returns (r: Result<()>)
    requires seen != caught
    modifies seen, caught
    ensures r.Ok? <==> ListedFits(pokedex, seen.Length, caught.Length)
    ensures r.Err? ==> r.error == IndexError
    ensures r.Ok? ==> forall k :: 0 <= k < 8 * seen.Length ==>
      (Flag(seen[..], k) <==> Flag(old(seen[..]), k) || Listed(pokedex, k, 1))
    ensures r.Ok? ==> forall k :: 0 <= k < 8 * caught.Length ==>
      (Flag(caught[..], k) <==> Flag(old(caught[..]), k) || Listed(pokedex, k, 2))
  {
    ghost var seen0, caught0 := seen[..], caught[..];
    var i := 1;
    while i <= SpeciesCountV1
      invariant 1 <= i <= SpeciesCountV1 + 1 && i - 1 <= |pokedex|
      invariant seen.Length == |seen0| && caught.Length == |caught0|
      invariant forall i' :: 1 <= i' < i && pokedex[i' - 1] == 1 ==> i' / 8 < seen.Length
      invariant forall i' :: 1 <= i' < i && pokedex[i' - 1] == 2 ==> i' / 8 < caught.Length
      invariant forall k :: 0 <= k < 8 * seen.Length ==>
        (Flag(seen[..], k) <==> Flag(seen0, k) || (k < i && Listed(pokedex, k, 1)))
      invariant forall k :: 0 <= k < 8 * caught.Length ==>
        (Flag(caught[..], k) <==> Flag(caught0, k) || (k < i && Listed(pokedex, k, 2)))
    {
      if i - 1 >= |pokedex| {
        return Err(IndexError);
      }
      var cand := pokedex[i - 1];
      if i <= SpeciesCountV1 {
        if cand == 1 {
          if i / 8 >= seen.Length {
            return Err(IndexError);
          }
          SetFlag(seen, i);
        } else if cand == 2 {
          if i / 8 >= caught.Length {
            return Err(IndexError);
          }
          SetFlag(caught, i);
        }
      }
      i := i + 1;
    }
    r := Ok(());
  }

  /** The shiny loop of `pokedexDataToBitmask`: a shiny of a 1.3.2 species sets that
      species' bit in both masks. */
  method MarkShinies(mons: seq<Mon>, seen: array<byte>, caught: array<byte>) returns (r: Result<()>)
    requires seen != caught
    modifies seen, caught
    ensures r.Ok? <==> ShiniesFit(mons, seen.Length, caught.Length)
    ensures r.Err? ==> r.error == IndexError
    ensures r.Ok? ==> forall k :: 0 <= k < 8 * seen.Length ==>
      (Flag(seen[..], k) <==> Flag(old(seen[..]), k) || MarkedShiny(mons, |mons|, k))
    ensures r.Ok? ==> forall k :: 0 <= k < 8 * caught.Length ==>
      (Flag(caught[..], k) <==> Flag(old(caught[..]), k) || MarkedShiny(mons, |mons|, k))
  {
    ghost var seen0, caught0 := seen[..], caught[..];
    var t := 0;
    while t < |mons|
      invariant t <= |mons|
      invariant seen.Length == |seen0| && caught.Length == |caught0|
      invariant forall t' :: 0 <= t' < t && mons[t'].shiny && mons[t'].species <= SpeciesCountV1 ==>
        mons[t'].species / 8 < seen.Length && mons[t'].species / 8 < caught.Length
      invariant forall k :: 0 <= k < 8 * seen.Length ==>
        (Flag(seen[..], k) <==> Flag(seen0, k) || MarkedShiny(mons, t, k))
      invariant forall k :: 0 <= k < 8 * caught.Length ==>
        (Flag(caught[..], k) <==> Flag(caught0, k) || MarkedShiny(mons, t, k))
    {
      var p := mons[t];
      if p.shiny && p.species <= SpeciesCountV1 {
        var k := p.species;
        if k / 8 >= seen.Length {
          return Err(IndexError);
        }
        SetFlag(seen, k);
        if k / 8 >= caught.Length {
          return Err(IndexError);
        }
        SetFlag(caught, k);
      }
      ShinyStep(mons, t);
      t := t + 1;
    }
    r := Ok(());
  }

  /** After `mask[0] = 0` no bit of byte 0 is set and every other bit is as it was. */
  lemma ClearedByteZero(before: seq<byte>, after: seq<byte>)
    requires |before| > 0 && after == before[0 := 0]
    ensures forall k :: 0 <= k < 8 * |after| ==> (Flag(after, k) <==> k >= 8 && Flag(before, k))
  {
    forall k | 0 <= k < 8 * |after|
      ensures Flag(after, k) <==> k >= 8 && Flag(before, k)
    {
      if k < 8 {
        NoBitOfZero(k % 8);
      }
    }
  }

  /** Extending the scan by mon t marks species k exactly when mon t is a shiny of k. */
  lemma ShinyStep(mons: seq<Mon>, t: nat)
    requires t < |mons|
    ensures forall k :: MarkedShiny(mons, t + 1, k) <==> MarkedShiny(mons, t, k) || ShinyOf(mons, t, k)
  {
  }

  // ---------------------------------------------------------------------------
  // Laws
  // ---------------------------------------------------------------------------

  /** On the masks of either save format, whose `DexSize` bytes hold bit 898, the 2.0
      encoding fails only when the status list is shorter than 898 entries. */
  lemma ProfileMasksFit(p: Profile, pokedex: seq<int>, mons: seq<Mon>)
    ensures Fits(pokedex, mons, p.DexSize(), p.DexSize()) <==> |pokedex| >= SpeciesCountV1
  {
    assert SpeciesCountV1 / 8 < p.DexSize();
    forall i | 0 <= i <= SpeciesCountV1
      ensures i / 8 < p.DexSize()
    {
      DivMonotone(i, SpeciesCountV1);
    }
  }

  lemma DivMonotone(i: nat, n: nat)
    requires i <= n
    ensures i / 8 <= n / 8
  {
  }

  /** Decoding what the 2.0 encoding left: bit k's status is 2 when its caught bit ended up
      set, otherwise 1 when its seen bit did. */
  lemma EncodedStatus(seen0: seq<byte>, caught0: seq<byte>, pokedex: seq<int>, mons: seq<Mon>,
                      seen: seq<byte>, caught: seq<byte>, k: nat)
    requires |seen| == |seen0| && |caught| == |caught0| && |seen| <= |caught|
    requires forall k :: 0 <= k < 8 * |seen| ==> (Flag(seen, k) <==> SeenAfter(seen0, pokedex, mons, k))
    requires forall k :: 0 <= k < 8 * |caught| ==> (Flag(caught, k) <==> CaughtAfter(caught0, pokedex, mons, k))
    requires k < 8 * |seen|
    ensures DexData(seen, caught, V2).value[k]
      == if CaughtAfter(caught0, pokedex, mons, k) then 2 else if SeenAfter(seen0, pokedex, mons, k) then 1 else 0
  {
  }

  /** The 2.0 encoding followed by decoding moves each status up by one index: species k,
      taken from index k - 1 of the list, comes back at index k, when the masks held no bit
      for it and no shiny of it was given. */
  lemma ListedComesBackShifted(seen0: seq<byte>, caught0: seq<byte>, pokedex: seq<int>, mons: seq<Mon>,
                               seen: seq<byte>, caught: seq<byte>, k: nat)
    requires |seen| == |seen0| && |caught| == |caught0| && |seen| <= |caught|
    requires forall k :: 0 <= k < 8 * |seen| ==> (Flag(seen, k) <==> SeenAfter(seen0, pokedex, mons, k))
    requires forall k :: 0 <= k < 8 * |caught| ==> (Flag(caught, k) <==> CaughtAfter(caught0, pokedex, mons, k))
    requires 1 <= k <= SpeciesCountV1 && k < 8 * |seen| && k - 1 < |pokedex|
    requires 0 <= pokedex[k - 1] <= 2
    requires k >= 8 ==> !Flag(seen0, k) && !Flag(caught0, k)
    requires !MarkedShiny(mons, |mons|, k)
    ensures DexData(seen, caught, V2).value[k] == pokedex[k - 1]
  {
    EncodedStatus(seen0, caught0, pokedex, mons, seen, caught, k);
  }

  /** A shiny of a 1.3.2 species given to the 2.0 encoding decodes as caught. */
  lemma ShinyComesBackCaught(seen0: seq<byte>, caught0: seq<byte>, pokedex: seq<int>, mons: seq<Mon>,
                             seen: seq<byte>, caught: seq<byte>, t: nat)
    requires |seen| == |seen0| && |caught| == |caught0| && |seen| <= |caught|
    requires forall k :: 0 <= k < 8 * |caught| ==> (Flag(caught, k) <==> CaughtAfter(caught0, pokedex, mons, k))
    requires t < |mons| && mons[t].shiny && mons[t].species <= SpeciesCountV1 && mons[t].species < 8 * |seen|
    ensures DexData(seen, caught, V2).value[mons[t].species] == 2
  {
    assert ShinyOf(mons, t, mons[t].species);
  }
}
