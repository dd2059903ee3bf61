/** The bag of SB1 as the snapshot pass reads and writes it: `BagItemCapacity` slots of
    four bytes from `ItemsOffset`, each an item id half-word followed by a quantity
    half-word that is XORed with the low half of the encryption key. */
module SaveBag {
  import opened Bytes
  import opened Profiles
  import opened Outcomes
  import opened ItemBag

  /** Where bag slot i starts in SB1. */
  function ItemSlot(p: Profile, i: nat): nat
  {
    p.ItemsOffset() + 4 * i
  }

  /** Where the bag ends in SB1. */
  function BagEnd(p: Profile): nat
  {
    ItemSlot(p, p.BagItemCapacity())
  }

  /** The low half of the encryption key. */
  function KeyLow(key: u32): u16
  {
    key % 0x1_0000
  }

  /** `xor(key, q) & 0xffff` for a Python int q of either sign: the low 16 bits of an XOR are
      the XOR of the low 16 bits, and `& 0xffff` keeps the residue of q modulo 65536. */
  function SealedQuantity(key: u32, q: int): u16
  {
    Pow2Of16And32();
    XorBound(KeyLow(key), q % 0x1_0000, 16);
    Xor(KeyLow(key), q % 0x1_0000)
  }

  /** On a non-negative quantity the sealed value is the low half of the full XOR. */
  lemma SealedQuantityIsLowHalf(key: u32, q: nat)
    ensures SealedQuantity(key, q) == Xor(key, q) % 0x1_0000
  {
    Pow2Of16And32();
    XorLow(key, q, 16);
  }

  /** Unsealing a sealed quantity with the low half of the same key gives the quantity back,
      modulo 65536. */
  lemma UnsealSealed(key: u32, q: int)
    ensures Xor(SealedQuantity(key, q), KeyLow(key)) == q % 0x1_0000
  {
    XorComm(KeyLow(key), q % 0x1_0000);
    XorInvolution(q % 0x1_0000, KeyLow(key));
  }

  /** The item the read loop finds in slot i: the id, and the quantity unsealed. */
  function StoredItem(s: seq<byte>, p: Profile, key: u32, i: nat): (x: Item)
    requires ItemSlot(p, i) + 4 <= |s|
    ensures 0 <= x.id < 0x1_0000 && 0 <= x.quantity < 0x1_0000
  {
    Pow2Of16And32();
    XorBound(U16At(s, ItemSlot(p, i) + 2), KeyLow(key), 16);
    Item(U16At(s, ItemSlot(p, i)), Xor(U16At(s, ItemSlot(p, i) + 2), KeyLow(key)))
  }

  /** The items of the first n slots whose id is not 0, in slot order. */
  function BagUpTo(s: seq<byte>, p: Profile, key: u32, n: nat): (r: seq<Item>)
    requires n <= p.BagItemCapacity() && BagEnd(p) <= |s|
    ensures |r| <= n && forall k :: 0 <= k < |r| ==> r[k].id != 0
  {
    if n == 0 then []
    else
      var x := StoredItem(s, p, key, n - 1);
      BagUpTo(s, p, key, n - 1) + (if x.id != 0 then [x] else [])
  }

  /** What the untampered pass reports as the bag. */
  function BagRead(s: seq<byte>, p: Profile, key: u32): seq<Item>
    requires BagEnd(p) <= |s|
  {
    BagUpTo(s, p, key, p.BagItemCapacity())
  }

  /** The tamper items a bag of `cap` slots receives: the first `cap` of them. */
  function Injected(items: seq<Item>, cap: nat): (r: seq<Item>)
    ensures |r| <= cap && |r| <= |items| && r == items[..|r|] && (|r| == |items| || |r| == cap)
  {
    if |items| <= cap then items else items[..cap]
  }

  /** `struct.pack('<H', id)` accepts the id of every tamper item the bag receives. */
  predicate IdsFit(items: seq<Item>, n: nat)
  {
    forall i :: 0 <= i < n && i < |items| ==> 0 <= items[i].id < 0x1_0000
  }

  /** The four bytes written for a tamper item. */
  function SlotImage(key: u32, x: Item): (t: seq<byte>)
    requires 0 <= x.id < 0x1_0000
    ensures |t| == 4
  {
    Pack16(x.id) + Pack16(SealedQuantity(key, x.quantity))
  }

  /** The buffer after the first n turns of the tamper loop: slot i receives tamper item i,
      or four zero bytes once the tamper items are used up. Bytes outside those n slots keep
      their values. */
  function BagImage(s: seq<byte>, p: Profile, key: u32, items: seq<Item>, n: nat): (r: seq<byte>)
    requires n <= p.BagItemCapacity() && BagEnd(p) <= |s| && IdsFit(items, n)
    ensures |r| == |s|
  {
    if n == 0 then s
    else
      var t := if n - 1 < |items| then SlotImage(key, items[n - 1]) else Zeros(4);
      Splice(BagImage(s, p, key, items, n - 1), ItemSlot(p, n - 1), t)
  }

  /** The tamper loop writes only inside the slots it has visited. */
  lemma {:induction false} BagImageFrame(s: seq<byte>, p: Profile, key: u32, items: seq<Item>, n: nat, b: nat)
    requires n <= p.BagItemCapacity() && BagEnd(p) <= |s| && IdsFit(items, n)
    requires b < |s| && !(p.ItemsOffset() <= b < ItemSlot(p, n))
    ensures BagImage(s, p, key, items, n)[b] == s[b]
  {
    if n > 0 {
      BagImageFrame(s, p, key, items, n - 1, b);
    }
  }

  /** What the tampered pass leaves in SB1. */
  function BagWritten(s: seq<byte>, p: Profile, key: u32, items: seq<Item>): seq<byte>
    requires BagEnd(p) <= |s| && IdsFit(items, p.BagItemCapacity())
  {
    BagImage(s, p, key, items, p.BagItemCapacity())
  }

  /** What reading the bag back finds of a run of written tamper items: those with a non-zero
      id, their quantities modulo 65536. */
  function Reread(items: seq<Item>): (r: seq<Item>)
    ensures |r| <= |items|
  {
    if items == [] then []
    else
      var x := items[|items| - 1];
      Reread(items[..|items| - 1]) + (if x.id != 0 then [Item(x.id, x.quantity % 0x1_0000)] else [])
  }

  /** The read loop over the first n slots sees only the bytes of those slots. */
  lemma {:induction false} BagUpToFrame(s: seq<byte>, s': seq<byte>, p: Profile, key: u32, n: nat)
    requires n <= p.BagItemCapacity() && BagEnd(p) <= |s| && BagEnd(p) <= |s'|
    requires forall b :: p.ItemsOffset() <= b < ItemSlot(p, n) ==> s[b] == s'[b]
    ensures BagUpTo(s, p, key, n) == BagUpTo(s', p, key, n)
  {
    if n > 0 {
      BagUpToFrame(s, s', p, key, n - 1);
      var at := ItemSlot(p, n - 1);
      assert s[at] == s'[at] && s[at + 1] == s'[at + 1] && s[at + 2] == s'[at + 2] && s[at + 3] == s'[at + 3];
    }
  }

  /** What the read loop finds in a slot just assigned. */
  lemma SlotReadsBack(y: seq<byte>, p: Profile, key: u32, i: nat, t: seq<byte>)
    requires i < p.BagItemCapacity() && BagEnd(p) <= |y| && |t| == 4
    ensures StoredItem(Splice(y, ItemSlot(p, i), t), p, key, i)
      == Item(U16At(t, 0), Xor(U16At(t, 2), KeyLow(key)))
  {
    var x := Splice(y, ItemSlot(p, i), t);
    assert x[ItemSlot(p, i)..ItemSlot(p, i) + 4] == t;
  }

  /** What the read loop finds in a slot holding the image of a tamper item. */
  lemma ImageReadsBack(key: u32, v: Item)
    requires 0 <= v.id < 0x1_0000
    ensures var t := SlotImage(key, v); Item(U16At(t, 0), Xor(U16At(t, 2), KeyLow(key))) == Item(v.id, v.quantity % 0x1_0000)
  {
    Unpack16Pack16(v.id);
    Unpack16Pack16(SealedQuantity(key, v.quantity));
    UnsealSealed(key, v.quantity);
  }

  /** Turn n - 1 of the tamper loop leaves the slots before it alone. */
  lemma EarlierSlotsKept(y: seq<byte>, p: Profile, key: u32, n: nat, t: seq<byte>)
    requires 0 < n <= p.BagItemCapacity() && BagEnd(p) <= |y| && |t| == 4
    ensures BagUpTo(Splice(y, ItemSlot(p, n - 1), t), p, key, n - 1) == BagUpTo(y, p, key, n - 1)
  {
    BagUpToFrame(Splice(y, ItemSlot(p, n - 1), t), y, p, key, n - 1);
  }

  /** One more written tamper item read back. */
  lemma RereadStep(items: seq<Item>, n: nat)
    requires 0 < n <= |items|
    ensures var v := items[n - 1];
      Reread(items[..n]) == Reread(items[..n - 1]) + (if v.id != 0 then [Item(v.id, v.quantity % 0x1_0000)] else [])
  {
    assert items[..n][..n - 1] == items[..n - 1];
  }

  /** Reading back the first n slots after the first n turns of the tamper loop finds the
      tamper items written there with a non-zero id, quantities modulo 65536. */
  lemma {:induction false} BagImageReads(s: seq<byte>, p: Profile, key: u32, items: seq<Item>, n: nat)
    requires n <= p.BagItemCapacity() && BagEnd(p) <= |s| && IdsFit(items, n)
    ensures BagUpTo(BagImage(s, p, key, items, n), p, key, n) == Reread(items[..if n < |items| then n else |items|])
  {
    if n > 0 {
      var y := BagImage(s, p, key, items, n - 1);
      var t := if n - 1 < |items| then SlotImage(key, items[n - 1]) else Zeros(4);
      var x := Splice(y, ItemSlot(p, n - 1), t);
      assert x == BagImage(s, p, key, items, n);
      BagImageReads(s, p, key, items, n - 1);
      EarlierSlotsKept(y, p, key, n, t);
      SlotReadsBack(y, p, key, n - 1, t);
      ghost var got := StoredItem(x, p, key, n - 1);
      ghost var before := BagUpTo(y, p, key, n - 1);
      assert BagUpTo(x, p, key, n) == before + (if got.id != 0 then [got] else []);
      if n - 1 < |items| {
        ImageReadsBack(key, items[n - 1]);
        RereadStep(items, n);
      }
    }
  }

  /** The round trip of the bag: reading back what the tamper loop left holds exactly the
      tamper items the bag received whose id is not 0, in order, with their quantities
      modulo 65536. */
  lemma BagRoundTrip(s: seq<byte>, p: Profile, key: u32, items: seq<Item>)
    requires BagEnd(p) <= |s| && IdsFit(items, p.BagItemCapacity())
    ensures BagRead(BagWritten(s, p, key, items), p, key) == Reread(Injected(items, p.BagItemCapacity()))
  {
    BagImageReads(s, p, key, items, p.BagItemCapacity());
  }

  /** The bag loop without a tamper dictionary: every slot is read and the items with a
      non-zero id are reported. */
  method ReadBag(p: Profile, sb1: seq<byte>, key: u32) returns (items: seq<Item>)
    requires BagEnd(p) <= |sb1|
    ensures items == BagRead(sb1, p, key)
  {
    items := [];
    var i := 0;
    while i < p.BagItemCapacity()
      invariant i <= p.BagItemCapacity()
      invariant items == BagUpTo(sb1, p, key, i)
    {
      var at := ItemSlot(p, i);
      var id := U16At(sb1, at);
      var quantity := Xor(U16At(sb1, at + 2), KeyLow(key));
      if id != 0 {
        items := items + [Item(id, quantity)];
      }
      i := i + 1;
    }
  }

  /** The bag loop with a tamper dictionary: tamper item after tamper item is written, from
      the counter `lastInsertedItem`, then the rest of the bag is zero-filled; the items
      written are reported. An id `struct.pack` rejects raises. */
  method WriteBag(p: Profile, sb1: array<byte>, key: u32, tamper: seq<Item>) returns (r: Result<seq<Item>>)
    requires BagEnd(p) <= sb1.Length
    modifies sb1
    ensures r.Ok? <==> IdsFit(tamper, p.BagItemCapacity())
    ensures r.Err? ==> r.error == StructError
    ensures r.Ok? ==> r.value == Injected(tamper, p.BagItemCapacity()) && sb1[..] == BagWritten(old(sb1[..]), p, key, tamper)
  {
    ghost var s0 := sb1[..];
    var items: seq<Item> := [];
    var next := 0;
    var i := 0;
    while i < p.BagItemCapacity()
      invariant i <= p.BagItemCapacity()
      invariant next == (if i < |tamper| then i else |tamper|)
      invariant IdsFit(tamper, i) && items == tamper[..next]
      invariant sb1[..] == BagImage(s0, p, key, tamper, i)
    {
      var ok := FillSlot(p, sb1, key, tamper, i, next, s0);
      if !ok {
        UnfitBeyond(tamper, i + 1, p.BagItemCapacity());
        return Err(StructError);
      }
      if next < |tamper| {
        AppendNext(tamper, items, next);
        items := items + [tamper[next]];
        next := next + 1;
      }
      i := i + 1;
    }
    assert next == |Injected(tamper, p.BagItemCapacity())|;
    r := Ok(items);
  }

  /** Appending item `next` to the first `next` items. */
  lemma AppendNext(tamper: seq<Item>, items: seq<Item>, next: nat)
    requires next < |tamper| && items == tamper[..next]
    ensures items + [tamper[next]] == tamper[..next + 1]
  {
    assert tamper[..next + 1] == tamper[..next] + [tamper[next]];
  }

  /** An id that does not fit among the first n items does not fit among more. */
  lemma UnfitBeyond(items: seq<Item>, n: nat, m: nat)
    requires n <= m && !IdsFit(items, n)
    ensures !IdsFit(items, m)
  {
    var j :| 0 <= j < n && j < |items| && !(0 <= items[j].id < 0x1_0000);
  }

  /** Turn i of the tamper loop: writes tamper item `next` into slot i, or zeros once the
      tamper items are used up; `ok` is false when `struct.pack` rejects the id. */
  method FillSlot(p: Profile, sb1: array<byte>, key: u32, tamper: seq<Item>, i: nat, next: nat, ghost s0: seq<byte>)
    returns (ok: bool)
    requires i < p.BagItemCapacity() && BagEnd(p) <= |s0| && next == (if i < |tamper| then i else |tamper|)
    requires IdsFit(tamper, i) && sb1[..] == BagImage(s0, p, key, tamper, i)
    modifies sb1
    ensures ok <==> IdsFit(tamper, i + 1)
    ensures ok ==> sb1[..] == BagImage(s0, p, key, tamper, i + 1)
  {
    ok := true;
    if next < |tamper| {
      var x := tamper[next];
      if !(0 <= x.id < 0x1_0000) {
        return false;
      }
      WriteItem(p, sb1, i, Pack16(x.id), Pack16(SealedQuantity(key, x.quantity)));
    } else {
      WriteItem(p, sb1, i, Pack16(0), Pack16(0));
      assert Pack16(0) + Pack16(0) == Zeros(4);
    }
  }

  /** The two half-word assignments to bag slot i. */
  method WriteItem(p: Profile, sb1: array<byte>, i: nat, id: seq<byte>, quantity: seq<byte>)
    requires i < p.BagItemCapacity() && BagEnd(p) <= sb1.Length && |id| == 2 && |quantity| == 2
    modifies sb1
    ensures sb1[..] == Splice(old(sb1[..]), ItemSlot(p, i), id + quantity)
  {
    var at := ItemSlot(p, i);
    Write(sb1, at, id);
    Write(sb1, at + 2, quantity);
    SpliceAdjacent(old(sb1[..]), at, id, quantity);
  }
}
