/** Converting the bag of a 1.3.2 save for a 2.0 save. Every id after the last 1.3.2 ball
    moves up by 11, the list is sorted by id, and only two pockets are kept: the items and
    medicines (ids 29..256 after the move) first, then the balls (ids up to 28). */
module ItemBag {

  /** A bag slot: the item id and its quantity. */
  datatype Item = Item(id: int, quantity: int)

  /** The last ball of the 1.3.2 numbering and of the 2.0 numbering. */
  const LastBallV1: int := 27
  const LastBallV2: int := 28
  /** The last id of the items pocket the conversion keeps. */
  const LastEvolutionV2: int := 256
  /** How far the ids after the balls move. */
  const IdShift: int := 11

  /** The 2.0 id of a 1.3.2 item. */
  function ShiftedItem(x: Item): (y: Item)
    ensures y.quantity == x.quantity
    ensures x.id <= LastBallV1 ==> y.id == x.id
    ensures x.id > LastBallV1 ==> y.id == x.id + IdShift
  {
    if x.id > LastBallV1 then x.(id := x.id + IdShift) else x
  }

  /** Every item of a list with its 2.0 id. */
  function Shifted(s: seq<Item>): (r: seq<Item>)
    ensures |r| == |s| && forall k :: 0 <= k < |s| ==> r[k] == ShiftedItem(s[k])
  {
    seq(|s|, k requires 0 <= k < |s| => ShiftedItem(s[k]))
  }

  /** The loop of `bagItemsToVersion2` that moves the ids, on the list in place. */
  method ShiftIds(il: array<Item>)
    modifies il
    ensures il[..] == Shifted(old(il[..]))
  {
    var i := 0;
    while i < il.Length
      invariant i <= il.Length
      invariant forall k :: 0 <= k < i ==> il[k] == ShiftedItem(old(il[k]))
      invariant forall k :: i <= k < il.Length ==> il[k] == old(il[k])
    {
      if il[i].id > LastBallV1 {
        il[i] := il[i].(id := il[i].id + IdShift);
      }
      i := i + 1;
    }
  }

  // ---------------------------------------------------------------------------
  // Sorting by id
  // ---------------------------------------------------------------------------

  predicate SortedById(s: seq<Item>)
  {
    forall i, j :: 0 <= i < j < |s| ==> s[i].id <= s[j].id
  }

  /** `x` placed before the first item whose id is not smaller. */
  function Insert(x: Item, t: seq<Item>): (r: seq<Item>)
    ensures |r| == |t| + 1
  {
    if t == [] || x.id <= t[0].id then [x] + t else [t[0]] + Insert(x, t[1..])
  }

  /** `sorted(il, key=lambda x: x['id'])`: a stable sort by id, written as an insertion
      sort. */
  function SortById(s: seq<Item>): (r: seq<Item>)
    ensures |r| == |s|
  {
    if s == [] then [] else Insert(s[0], SortById(s[1..]))
  }

  /** The items of `s` whose id passes `keep`, in their order in `s`. */
  function Filter(s: seq<Item>, keep: int -> bool): (r: seq<Item>)
    ensures |r| <= |s|
  {
    if s == [] then [] else (if keep(s[0].id) then [s[0]] else []) + Filter(s[1..], keep)
  }

  lemma {:induction false} InsertSorted(x: Item, t: seq<Item>)
    requires SortedById(t)
    ensures SortedById(Insert(x, t))
    ensures forall k :: 0 <= k < |Insert(x, t)| ==> Insert(x, t)[k].id >= x.id || Insert(x, t)[k].id >= (if t == [] then x.id else t[0].id)
  {
    if t != [] && x.id > t[0].id {
      InsertSorted(x, t[1..]);
      var r := Insert(x, t);
      assert r == [t[0]] + Insert(x, t[1..]);
      forall i, j | 0 <= i < j < |r|
        ensures r[i].id <= r[j].id
      {
        if i == 0 {
          assert r[j] == Insert(x, t[1..])[j - 1];
          if |t| > 1 {
            assert t[0].id <= t[1].id;
          }
        }
      }
    }
  }

  /** The insertion sort sorts. */
  lemma {:induction false} SortByIdSorted(s: seq<Item>)
    ensures SortedById(SortById(s))
  {
    if s != [] {
      SortByIdSorted(s[1..]);
      InsertSorted(s[0], SortById(s[1..]));
    }
  }

  lemma {:induction false} InsertMultiset(x: Item, t: seq<Item>)
    ensures multiset(Insert(x, t)) == multiset{x} + multiset(t)
  {
    if t != [] && x.id > t[0].id {
      InsertMultiset(x, t[1..]);
      assert t == [t[0]] + t[1..];
    }
  }

  /** The insertion sort only reorders. */
  lemma {:induction false} SortByIdPermutes(s: seq<Item>)
    ensures multiset(SortById(s)) == multiset(s)
  {
    if s != [] {
      SortByIdPermutes(s[1..]);
      InsertMultiset(s[0], SortById(s[1..]));
      assert s == [s[0]] + s[1..];
    }
  }

  /** Filtering a list with an item inserted: the item is kept or dropped on its own. */
  lemma {:induction false} FilterInsertMultiset(x: Item, t: seq<Item>, keep: int -> bool)
    ensures multiset(Filter(Insert(x, t), keep))
      == (if keep(x.id) then multiset{x} else multiset{}) + multiset(Filter(t, keep))
  {
    if t != [] && x.id > t[0].id {
      FilterInsertMultiset(x, t[1..], keep);
    }
  }

  /** Filtering the sorted list keeps the same items as filtering the list. */
  lemma {:induction false} FilterSortMultiset(s: seq<Item>, keep: int -> bool)
    ensures multiset(Filter(SortById(s), keep)) == multiset(Filter(s, keep))
  {
    if s != [] {
      FilterSortMultiset(s[1..], keep);
      FilterInsertMultiset(s[0], SortById(s[1..]), keep);
    }
  }

  /** Inserting an item in front of all items with a larger or equal id puts it first among
      the items of its own id. */
  lemma {:induction false} FilterInsertOneId(x: Item, t: seq<Item>, keep: int -> bool, v: int)
    requires forall a :: keep(a) ==> a == v
    ensures Filter(Insert(x, t), keep) == (if keep(x.id) then [x] else []) + Filter(t, keep)
  {
    if t != [] && x.id > t[0].id {
      FilterInsertOneId(x, t[1..], keep, v);
      if keep(x.id) {
        FilterInsertPastKept(x, t, keep, v);
      } else {
        assert [] + Filter(t[1..], keep) == Filter(t[1..], keep);
        FilterInsertPastDropped(x, t, keep);
        assert [] + Filter(t, keep) == Filter(t, keep);
      }
    } else {
      var r := Insert(x, t);
      assert r == [x] + t;
      assert r[0] == x && r[1..] == t;
    }
  }

  /** The step of FilterInsertOneId where `x` is kept and goes past the first item, which
      then has another id. */
  lemma FilterInsertPastKept(x: Item, t: seq<Item>, keep: int -> bool, v: int)
    requires forall a :: keep(a) ==> a == v
    requires t != [] && x.id > t[0].id && keep(x.id)
    requires Filter(Insert(x, t[1..]), keep) == [x] + Filter(t[1..], keep)
    ensures Filter(Insert(x, t), keep) == [x] + Filter(t, keep)
  {
    var r := Insert(x, t);
    assert r[0] == t[0] && r[1..] == Insert(x, t[1..]);
    assert !keep(t[0].id);
    assert Filter(r, keep) == [] + Filter(r[1..], keep);
    assert [] + Filter(r[1..], keep) == Filter(r[1..], keep);
    assert Filter(t, keep) == [] + Filter(t[1..], keep);
    assert [] + Filter(t[1..], keep) == Filter(t[1..], keep);
  }

  /** The step of FilterInsertOneId where `x` is dropped and goes past the first item. */
  lemma FilterInsertPastDropped(x: Item, t: seq<Item>, keep: int -> bool)
    requires t != [] && x.id > t[0].id && !keep(x.id)
    requires Filter(Insert(x, t[1..]), keep) == Filter(t[1..], keep)
    ensures Filter(Insert(x, t), keep) == Filter(t, keep)
  {
    var r := Insert(x, t);
    assert r[0] == t[0] && r[1..] == Insert(x, t[1..]);
  }

  /** The sort is stable: the items of any one id `v` keep their order (`keep` passes no
      other id). */
  lemma {:induction false} SortByIdStable(s: seq<Item>, keep: int -> bool, v: int)
    requires forall a :: keep(a) ==> a == v
    ensures Filter(SortById(s), keep) == Filter(s, keep)
  {
    if s != [] {
      SortByIdStable(s[1..], keep, v);
      FilterInsertOneId(s[0], SortById(s[1..]), keep, v);
    }
  }

  /** Every item of a filtered list is an item of the list that passes the filter. */
  lemma {:induction false} FilterFrom(s: seq<Item>, keep: int -> bool)
    ensures forall y :: y in Filter(s, keep) ==> y in s && keep(y.id)
  {
    if s != [] {
      FilterFrom(s[1..], keep);
    }
  }

  /** Filtering keeps a sorted list sorted. */
  lemma {:induction false} FilterSorted(s: seq<Item>, keep: int -> bool)
    requires SortedById(s)
    ensures SortedById(Filter(s, keep))
  {
    if s != [] {
      FilterSorted(s[1..], keep);
      FilterFrom(s[1..], keep);
      var r := Filter(s, keep);
      var rest := Filter(s[1..], keep);
      if keep(s[0].id) {
        assert r == [s[0]] + rest;
        forall i, j | 0 <= i < j < |r|
          ensures r[i].id <= r[j].id
        {
          if i == 0 {
            assert r[j] in s[1..];
          }
        }
      }
    }
  }

  /** Two filters that no id passes both split what their union keeps. */
  lemma {:induction false} FilterUnion(s: seq<Item>, f: int -> bool, g: int -> bool, h: int -> bool)
    requires forall a :: h(a) <==> f(a) || g(a)
    requires forall a :: !(f(a) && g(a))
    ensures multiset(Filter(s, f)) + multiset(Filter(s, g)) == multiset(Filter(s, h))
  {
    if s != [] {
      FilterUnion(s[1..], f, g, h);
    }
  }

  // ---------------------------------------------------------------------------
  // The conversion
  // ---------------------------------------------------------------------------

  /** The items and medicines pocket of a 2.0 bag, as far as the conversion fills it. */
  predicate InItemsPocket(id: int)
  {
    LastBallV2 < id <= LastEvolutionV2
  }

  /** The ball pocket of a 2.0 bag. */
  predicate InBallsPocket(id: int)
  {
    id <= LastBallV2
  }

  /** The ids the conversion keeps. */
  predicate KeptV2(id: int)
  {
    id <= LastEvolutionV2
  }

  /** What `bagItemsToVersion2` returns for a list of items in 2.0 numbering. */
  function Grouped(s: seq<Item>): seq<Item>
  {
    var sorted := SortById(s);
    Filter(sorted, InItemsPocket) + Filter(sorted, InBallsPocket)
  }

  /** `bagItemsToVersion2`: the ids are moved in place, in the caller's list, then the
      sorted items are grouped by pocket. */
  method BagItemsToVersion2(il: array<Item>) returns (filtered: seq<Item>)
    modifies il
    ensures il[..] == Shifted(old(il[..]))
    ensures filtered == Grouped(il[..])
  {
    ShiftIds(il);
    var sorted := SortById(il[..]);
    filtered := [];
    filtered := filtered + Filter(sorted, InItemsPocket);
    filtered := filtered + Filter(sorted, InBallsPocket);
  }

  /** The converted bag: the items pocket sorted by id, then the ball pocket sorted by id;
      together they are exactly the items with a 2.0 id up to 256, each with its quantity,
      and items of equal id keep their order. */
  lemma GroupedLaws(s: seq<Item>)
    ensures var its, balls := Filter(SortById(s), InItemsPocket), Filter(SortById(s), InBallsPocket);
      && Grouped(s) == its + balls
      && SortedById(its) && SortedById(balls)
      && (forall x :: x in its ==> InItemsPocket(x.id))
      && (forall x :: x in balls ==> InBallsPocket(x.id))
      && multiset(Grouped(s)) == multiset(Filter(s, KeptV2))
  {
    var sorted := SortById(s);
    SortByIdSorted(s);
    FilterSorted(sorted, InItemsPocket);
    FilterSorted(sorted, InBallsPocket);
    FilterFrom(sorted, InItemsPocket);
    FilterFrom(sorted, InBallsPocket);
    FilterUnion(sorted, InItemsPocket, InBallsPocket, KeptV2);
    FilterSortMultiset(s, KeptV2);
  }

  /** After the move, the ball pocket holds exactly the 1.3.2 balls (and lower ids), and the
      items pocket the 1.3.2 ids 28..245: every converted item is a 1.3.2 item with its id
      moved and its quantity kept. */
  lemma ConvertedFrom(s: seq<Item>, y: Item)
    requires y in Grouped(Shifted(s))
    ensures exists x :: x in s && y == ShiftedItem(x) && x.id <= LastEvolutionV2 - IdShift
    ensures InBallsPocket(y.id) <==> y.id <= LastBallV1
  {
    var sh := Shifted(s);
    GroupedLaws(sh);
    var kept := Filter(sh, KeptV2);
    assert y in multiset(kept);
    assert y in kept;
    FilterFrom(sh, KeptV2);
    var k :| 0 <= k < |sh| && sh[k] == y;
    var x := s[k];
    assert x in s && y == ShiftedItem(x);
    assert x.id <= LastEvolutionV2 - IdShift;
  }

  /** `sorted` gives a list sorted by id that holds the same items. */
  lemma SortKeepsItems(s: seq<Item>)
    ensures SortedById(SortById(s)) && multiset(SortById(s)) == multiset(s)
  {
    SortByIdSorted(s);
    SortByIdPermutes(s);
  }
}
