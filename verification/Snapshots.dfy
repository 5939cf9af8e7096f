/**
 L4 snapshots: reading a book out in priority order, restricting it to a price band,
 and rebuilding a book from a dump whose tails may carry untriggered trigger orders.
 */
module Snapshots {
  import opened Types
  import opened Levels
  import opened BookCore
  import opened RestingMap

  datatype Snapshot = Snapshot(bids: seq<Order>, asks: seq<Order>)

  /** Optional inclusive price bounds. */
  datatype PxBand = PxBand(min: Option<Px>, max: Option<Px>)

  const WHOLE_BOOK := PxBand(None, None)

  predicate InBand(band: PxBand, px: Px) {
    && (band.min.Some? ==> band.min.value <= px)
    && (band.max.Some? ==> px <= band.max.value)
  }

  predicate Inverted(band: PxBand) {
    band.min.Some? && band.max.Some? && band.min.value > band.max.value
  }

  function KeysIn(keys: seq<Px>, band: PxBand): seq<Px> {
    if keys == [] then []
    else (if InBand(band, keys[0]) then [keys[0]] else []) + KeysIn(keys[1..], band)
  }

  /** One side of a snapshot: the levels inside the band, best first, each in queue order. */
  function SideInBand(b: Book, side: Side, band: PxBand): seq<Order> {
    Flatten(LevelsOf(b, side), KeysIn(BestFirst(side, LevelsOf(b, side).Keys), band))
  }

  function ToSnapshotInBand(b: Book, band: PxBand): Snapshot {
    if Inverted(band) then Snapshot([], [])
    else Snapshot(SideInBand(b, Bid, band), SideInBand(b, Ask, band))
  }

  // ----- a band is a filter -----

  function OrdersIn(q: seq<Order>, band: PxBand): seq<Order> {
    if q == [] then []
    else (if InBand(band, q[0].px) then [q[0]] else []) + OrdersIn(q[1..], band)
  }

  lemma {:induction false} OrdersInConcat(a: seq<Order>, b: seq<Order>, band: PxBand)
    ensures OrdersIn(a + b, band) == OrdersIn(a, band) + OrdersIn(b, band)
  {
    if a == [] {
      assert a + b == b;
    } else {
      assert (a + b)[1..] == a[1..] + b;
      OrdersInConcat(a[1..], b, band);
    }
  }

  lemma {:induction false} OnePriceInBand(q: seq<Order>, px: Px, band: PxBand)
    requires forall i :: 0 <= i < |q| ==> q[i].px == px
    ensures OrdersIn(q, band) == if InBand(band, px) then q else []
  {
    if q != [] {
      OnePriceInBand(q[1..], px, band);
    }
  }

  lemma {:induction false} BandOfFlatten(b: Book, side: Side, keys: seq<Px>, band: PxBand)
    requires BookInv(b)
    ensures Flatten(LevelsOf(b, side), KeysIn(keys, band)) == OrdersIn(Flatten(LevelsOf(b, side), keys), band)
  {
    if keys != [] {
      var levels := LevelsOf(b, side);
      var q := if keys[0] in levels then levels[keys[0]].queue else [];
      BandOfFlatten(b, side, keys[1..], band);
      OrdersInConcat(q, Flatten(levels, keys[1..]), band);
      forall i | 0 <= i < |q| ensures q[i].px == keys[0] {
        assert OrderAt(b, side, keys[0], i);
      }
      OnePriceInBand(q, keys[0], band);
      var later := KeysIn(keys[1..], band);
      assert ([keys[0]] + later)[1..] == later && [] + later == later;
    }
  }

  /** A banded snapshot is the whole snapshot with the out-of-band orders left out, order kept. */
  lemma BandIsAFilter(b: Book, band: PxBand)
    requires BookInv(b)
    ensures var whole, part := ToSnapshotInBand(b, WHOLE_BOOK), ToSnapshotInBand(b, band);
            part == Snapshot(OrdersIn(whole.bids, band), OrdersIn(whole.asks, band))
  {
    var bids, asks := BestFirst(Bid, b.bids.Keys), BestFirst(Ask, b.asks.Keys);
    AllKeysIn(bids);
    AllKeysIn(asks);
    BandOfFlatten(b, Bid, bids, band);
    BandOfFlatten(b, Ask, asks, band);
    if Inverted(band) {
      NothingInside(ToSnapshotInBand(b, WHOLE_BOOK).bids, band);
      NothingInside(ToSnapshotInBand(b, WHOLE_BOOK).asks, band);
    }
  }

  lemma {:induction false} AllKeysIn(keys: seq<Px>)
    ensures KeysIn(keys, WHOLE_BOOK) == keys
  {
    if keys != [] {
      AllKeysIn(keys[1..]);
    }
  }

  lemma {:induction false} NothingInside(q: seq<Order>, band: PxBand)
    requires Inverted(band)
    ensures OrdersIn(q, band) == []
  {
    if q != [] {
      NothingInside(q[1..], band);
    }
  }

  // ----- stripping trigger orders off the tails -----

  predicate HasOid(q: seq<Order>, oid: Oid) {
    exists i :: 0 <= i < |q| && q[i].oid == oid
  }

  /** How much of a side is left once its tail orders present on both sides are popped. */
  function KeptLen(q: seq<Order>, sn: Snapshot): (k: nat)
    ensures k <= |q|
  {
    if q == [] then 0
    else
      var oid := q[|q| - 1].oid;
      if HasOid(sn.bids, oid) && HasOid(sn.asks, oid) then KeptLen(q[..|q| - 1], sn) else |q|
  }

  method PopTriggers(q: seq<Order>, sn: Snapshot) returns (kept: seq<Order>, popped: seq<Order>)
    ensures kept == q[..KeptLen(q, sn)]
    ensures |popped| == |q| - KeptLen(q, sn)
    ensures forall i :: 0 <= i < |popped| ==> popped[i] == q[|q| - 1 - i]
  {
    kept, popped := q, [];
    while kept != [] && HasOid(sn.bids, kept[|kept| - 1].oid) && HasOid(sn.asks, kept[|kept| - 1].oid)
      invariant |kept| + |popped| == |q| && kept == q[..|kept|]
      invariant KeptLen(kept, sn) == KeptLen(q, sn)
      invariant forall i :: 0 <= i < |popped| ==> popped[i] == q[|q| - 1 - i]
      decreases |kept|
    {
      popped := popped + [kept[|kept| - 1]];
      kept := kept[..|kept| - 1];
    }
  }

  function Stripped(sn: Snapshot): Snapshot {
    Snapshot(sn.bids[..KeptLen(sn.bids, sn)], sn.asks[..KeptLen(sn.asks, sn)])
  }

  function AddAll(b: Book, orders: seq<Order>): Book {
    if orders == [] then b else Add(AddAll(b, orders[..|orders| - 1]), orders[|orders| - 1], None).0
  }

  function FromSnapshot(sn: Snapshot, ignoreTriggers: bool): Book {
    var s := if ignoreTriggers then Stripped(sn) else sn;
    AddAll(AddAll(EMPTY_BOOK, s.bids), s.asks)
  }

  // ----- rebuilding -----

  function AtPx(q: seq<Order>, px: Px): seq<Order> {
    if q == [] then []
    else AtPx(q[..|q| - 1], px) + (if q[|q| - 1].px == px then [q[|q| - 1]] else [])
  }

  function QueueAt(b: Book, side: Side, px: Px): seq<Order> {
    LevelOr(LevelsOf(b, side), px).queue
  }

  /** Orders of one side that can be added one after the other without trading. */
  ghost predicate Addable(b: Book, side: Side, q: seq<Order>) {
    && DistinctOids(q)
    && (forall i :: 0 <= i < |q| ==> q[i].side == side && q[i].sz > 0 && q[i].oid !in b.index && NoCross(b, q[i]))
  }

  /** What a half-rebuilt side looks like: each level queues its orders in the order they came. */
  ghost predicate Rebuilt(b: Book, side: Side, q: seq<Order>, r: Book) {
    && BookInv(r)
    && LevelsOf(r, Opposite(side)) == LevelsOf(b, Opposite(side))
    && (forall px :: QueueAt(r, side, px) == AtPx(q, px))
    && (forall oid :: oid in r.index <==> oid in b.index || HasOid(q, oid))
  }

  /** An order that crosses nothing goes to the back of its own level and nowhere else. */
  lemma AddAtBack(b: Book, o: Order, px: Px)
    requires BookInv(b) && o.oid !in b.index && o.sz > 0 && NoCross(b, o)
    ensures Add(b, o, None).0 == Rest(b, o, None)
    ensures QueueAt(Rest(b, o, None), o.side, px) == QueueAt(b, o.side, px) + (if px == o.px then [o] else [])
  {
    NoCrossNoMatch(b, o);
    assert o.(sz := o.sz) == o;
    if o.px in LevelsOf(b, o.side) {
      UnindexedIsUnqueued(b, o.side, o.px, o.oid);
    }
  }

  lemma HasOidSnoc(q: seq<Order>, oid: Oid)
    requires q != []
    ensures HasOid(q, oid) <==> HasOid(q[..|q| - 1], oid) || q[|q| - 1].oid == oid
  {
    var before := q[..|q| - 1];
    if HasOid(q, oid) && q[|q| - 1].oid != oid {
      var i :| 0 <= i < |q| && q[i].oid == oid;
      assert before[i].oid == oid;
    }
    if HasOid(before, oid) {
      var i :| 0 <= i < |before| && before[i].oid == oid;
      assert q[i].oid == oid;
    }
  }

  lemma AddOneMore(b: Book, side: Side, q: seq<Order>, r: Book)
    requires BookInv(b) && q != [] && Addable(b, side, q) && Rebuilt(b, side, q[..|q| - 1], r)
    ensures Rebuilt(b, side, q, Add(r, q[|q| - 1], None).0)
  {
    var o := q[|q| - 1];
    var r' := Add(r, o, None).0;
    LastIsAddable(b, side, q, r);
    AddedIs(r, o, r');
    OneMoreIsRebuilt(b, side, q, r, r');
  }

  /** What adding an order that crosses nothing changes: its level, at the back, and the index. */
  lemma AddedIs(r: Book, o: Order, r': Book)
    requires BookInv(r) && o.oid !in r.index && o.sz > 0 && NoCross(r, o) && r' == Add(r, o, None).0
    ensures BookInv(r') && r'.index.Keys == r.index.Keys + {o.oid}
    ensures LevelsOf(r', Opposite(o.side)) == LevelsOf(r, Opposite(o.side))
    ensures forall px :: QueueAt(r', o.side, px) == QueueAt(r, o.side, px) + (if px == o.px then [o] else [])
  {
    AddKeepsInv(r, o, None);
    AddAtBack(r, o, 0);
    forall px
      ensures QueueAt(r', o.side, px) == QueueAt(r, o.side, px) + (if px == o.px then [o] else [])
    {
      AddAtBack(r, o, px);
    }
  }

  lemma OneMoreIsRebuilt(b: Book, side: Side, q: seq<Order>, r: Book, r': Book)
    requires q != [] && Rebuilt(b, side, q[..|q| - 1], r) && BookInv(r')
    requires r'.index.Keys == r.index.Keys + {q[|q| - 1].oid}
    requires LevelsOf(r', Opposite(side)) == LevelsOf(r, Opposite(side))
    requires forall px :: QueueAt(r', side, px) == QueueAt(r, side, px) + (if px == q[|q| - 1].px then [q[|q| - 1]] else [])
    ensures Rebuilt(b, side, q, r')
  {
    AddOneMoreIndex(b, q, r, r');
    forall px
      ensures QueueAt(r', side, px) == AtPx(q, px)
    {
      assert QueueAt(r, side, px) == AtPx(q[..|q| - 1], px);
    }
  }

  lemma LastIsAddable(b: Book, side: Side, q: seq<Order>, r: Book)
    requires q != [] && Addable(b, side, q) && Rebuilt(b, side, q[..|q| - 1], r)
    ensures var o := q[|q| - 1]; o.side == side && o.sz > 0 && o.oid !in r.index && NoCross(r, o)
  {
    var o := q[|q| - 1];
    assert NoCross(b, o);
  }

  lemma AddOneMoreIndex(b: Book, q: seq<Order>, r: Book, r': Book)
    requires q != [] && r'.index.Keys == r.index.Keys + {q[|q| - 1].oid}
    requires forall oid :: oid in r.index <==> oid in b.index || HasOid(q[..|q| - 1], oid)
    ensures forall oid :: oid in r'.index <==> oid in b.index || HasOid(q, oid)
  {
    forall oid
      ensures oid in r'.index <==> oid in b.index || HasOid(q, oid)
    {
      HasOidSnoc(q, oid);
      assert oid in r'.index <==> oid in r'.index.Keys;
    }
  }

  lemma {:induction false} AddAllRebuilds(b: Book, side: Side, q: seq<Order>)
    requires BookInv(b) && LevelsOf(b, side) == map[] && Addable(b, side, q)
    ensures Rebuilt(b, side, q, AddAll(b, q))
  {
    if q != [] {
      AddAllRebuilds(b, side, q[..|q| - 1]);
      AddOneMore(b, side, q, AddAll(b, q[..|q| - 1]));
    }
  }

  lemma {:induction false} AddAllKeepsExact(b: Book, side: Side, q: seq<Order>)
    requires BookInv(b) && LevelsOf(b, side) == map[] && Addable(b, side, q) && AllExact(b) && AllFit(b)
    requires forall px :: SumSz(AtPx(q, px)) <= U64_MAX
    ensures AllExact(AddAll(b, q)) && AllFit(AddAll(b, q))
  {
    AddAllRebuilds(b, side, q);
    var r' := AddAll(b, q);
    forall s, px ensures FitsAt(r', s, px) {
      assert FitsAt(b, s, px) && QueueAt(r', side, px) == AtPx(q, px);
      assert s == side || LevelsOf(r', s) == LevelsOf(b, s);
    }
    if q != [] {
      var before := q[..|q| - 1];
      forall px ensures SumSz(AtPx(before, px)) <= U64_MAX {
        SumConcat(AtPx(before, px), if q[|q| - 1].px == px then [q[|q| - 1]] else []);
        assert SumSz(AtPx(q, px)) <= U64_MAX;
      }
      AddAllKeepsExact(b, side, before);
      AddAllRebuilds(b, side, before);
      StepKeepsAllExact(AddAll(b, before), AddOp(q[|q| - 1], None));
    }
  }

  /** A well-formed book with exact aggregates is determined by its queues. */
  lemma QueuesDetermineBook(a: Book, b: Book)
    requires BookInv(a) && BookInv(b) && AllExact(a) && AllExact(b)
    requires forall side, px :: QueueAt(a, side, px) == QueueAt(b, side, px)
    ensures a == b
  {
    forall side ensures LevelsOf(a, side) == LevelsOf(b, side) {
      forall px
        ensures px in LevelsOf(a, side) <==> px in LevelsOf(b, side)
        ensures px in LevelsOf(a, side) ==> LevelsOf(a, side)[px] == LevelsOf(b, side)[px]
      {
        assert QueueAt(a, side, px) == QueueAt(b, side, px);
        assert LevelAt(a, side, px) && LevelAt(b, side, px) && ExactAt(a, side, px) && ExactAt(b, side, px);
      }
    }
    assert LevelsOf(a, Bid) == LevelsOf(b, Bid) && LevelsOf(a, Ask) == LevelsOf(b, Ask);
    IndexFollowsQueues(a, b);
    IndexFollowsQueues(b, a);
  }

  lemma IndexFollowsQueues(a: Book, b: Book)
    requires BookInv(a) && BookInv(b) && a.bids == b.bids && a.asks == b.asks
    ensures forall oid :: oid in a.index ==> oid in b.index && b.index[oid] == a.index[oid]
  {
    forall oid | oid in a.index ensures oid in b.index && b.index[oid] == a.index[oid] {
      assert IndexAt(a, oid);
      var Loc(side, px) := a.index[oid];
      assert OrderAt(b, side, px, Find(LevelsOf(b, side)[px].queue, oid));
    }
  }

  lemma {:induction false} AtPxConcat(a: seq<Order>, b: seq<Order>, px: Px)
    ensures AtPx(a + b, px) == AtPx(a, px) + AtPx(b, px)
  {
    if b == [] {
      assert a + b == a;
    } else {
      assert (a + b)[..|a + b| - 1] == a + b[..|b| - 1];
      AtPxConcat(a, b[..|b| - 1], px);
    }
  }

  lemma {:induction false} AtPxOfOnePrice(q: seq<Order>, p: Px, px: Px)
    requires forall i :: 0 <= i < |q| ==> q[i].px == p
    ensures AtPx(q, px) == if p == px then q else []
  {
    if q != [] {
      AtPxOfOnePrice(q[..|q| - 1], p, px);
    }
  }

  /** Picking one price out of the flattened side gives back that level's queue. */
  lemma {:induction false} FlattenAtPx(b: Book, side: Side, keys: seq<Px>, px: Px)
    requires BookInv(b) && Sorted(side, keys)
    ensures AtPx(Flatten(LevelsOf(b, side), keys), px) == if px in keys then QueueAt(b, side, px) else []
  {
    if keys != [] {
      var q := QueueAt(b, side, keys[0]);
      FlattenAtPx(b, side, keys[1..], px);
      AtPxConcat(q, Flatten(LevelsOf(b, side), keys[1..]), px);
      forall i | 0 <= i < |q| ensures q[i].px == keys[0] {
        assert OrderAt(b, side, keys[0], i);
      }
      AtPxOfOnePrice(q, keys[0], px);
      assert px in keys <==> px == keys[0] || px in keys[1..];
    }
  }

  lemma {:induction false} FlattenMember(b: Book, side: Side, keys: seq<Px>, i: nat)
    requires BookInv(b) && i < |Flatten(LevelsOf(b, side), keys)|
    ensures var o := Flatten(LevelsOf(b, side), keys)[i];
            && o.side == side && o.sz > 0 && o.px in keys && o.px in LevelsOf(b, side)
            && o.oid in b.index && b.index[o.oid] == Loc(side, o.px)
  {
    var q := QueueAt(b, side, keys[0]);
    if i < |q| {
      assert OrderAt(b, side, keys[0], i);
    } else {
      FlattenMember(b, side, keys[1..], i - |q|);
    }
  }

  lemma {:induction false} FlattenIsDistinct(b: Book, side: Side, keys: seq<Px>)
    requires BookInv(b) && Sorted(side, keys)
    ensures DistinctOids(Flatten(LevelsOf(b, side), keys))
  {
    if keys != [] {
      var q, later := QueueAt(b, side, keys[0]), Flatten(LevelsOf(b, side), keys[1..]);
      FlattenIsDistinct(b, side, keys[1..]);
      assert LevelAt(b, side, keys[0]);
      forall i, j | 0 <= i < |q| && 0 <= j < |later| ensures q[i].oid != later[j].oid {
        assert OrderAt(b, side, keys[0], i);
        FlattenMember(b, side, keys[1..], j);
      }
      assert Flatten(LevelsOf(b, side), keys) == q + later;
    }
  }

  function SideOrders(b: Book, side: Side): seq<Order> {
    Flatten(LevelsOf(b, side), BestFirst(side, LevelsOf(b, side).Keys))
  }

  /** The flattened side can be fed back into any book that has nothing on that side and does not cross it. */
  lemma SideRebuilds(b: Book, side: Side, base: Book)
    requires BookInv(b) && AllExact(b) && AllFit(b)
    requires BookInv(base) && AllExact(base) && AllFit(base) && LevelsOf(base, side) == map[]
    requires forall p, k :: p in LevelsOf(b, side) && k in LevelsOf(base, Opposite(side)) ==> !Crosses(side, p, k)
    requires forall oid :: oid in base.index && oid in b.index ==> b.index[oid].side != side
    ensures var r := AddAll(base, SideOrders(b, side));
            && Rebuilt(base, side, SideOrders(b, side), r) && AllExact(r) && AllFit(r)
            && (forall px :: QueueAt(r, side, px) == QueueAt(b, side, px))
  {
    var keys, q := BestFirst(side, LevelsOf(b, side).Keys), SideOrders(b, side);
    FlattenIsDistinct(b, side, keys);
    forall i | 0 <= i < |q| ensures q[i].side == side && q[i].sz > 0 && q[i].oid !in base.index && NoCross(base, q[i]) {
      FlattenMember(b, side, keys, i);
    }
    forall px ensures AtPx(q, px) == QueueAt(b, side, px) && SumSz(AtPx(q, px)) <= U64_MAX {
      FlattenAtPx(b, side, keys, px);
      assert FitsAt(b, side, px);
    }
    AddAllRebuilds(base, side, q);
    AddAllKeepsExact(base, side, q);
  }

  lemma WholeSnapshotIs(b: Book)
    ensures ToSnapshotInBand(b, WHOLE_BOOK) == Snapshot(SideOrders(b, Bid), SideOrders(b, Ask))
  {
    AllKeysIn(BestFirst(Bid, b.bids.Keys));
    AllKeysIn(BestFirst(Ask, b.asks.Keys));
  }

  /** Rebuilding from the two sides of a book gives back the very same book. */
  lemma SidesRebuildBook(b: Book)
    requires BookInv(b) && AllExact(b) && AllFit(b)
    ensures AddAll(AddAll(EMPTY_BOOK, SideOrders(b, Bid)), SideOrders(b, Ask)) == b
  {
    RunKeepsInv([]);
    assert AllExact(EMPTY_BOOK) && AllFit(EMPTY_BOOK);
    SideRebuilds(b, Bid, EMPTY_BOOK);
    var half := AddAll(EMPTY_BOOK, SideOrders(b, Bid));
    forall p, k | p in LevelsOf(b, Ask) && k in LevelsOf(half, Bid) ensures !Crosses(Ask, p, k) {
      assert QueueAt(half, Bid, k) == QueueAt(b, Bid, k) && LevelAt(half, Bid, k);
    }
    forall oid | oid in half.index ensures oid in b.index && b.index[oid].side == Bid {
      var q := SideOrders(b, Bid);
      assert HasOid(q, oid);
      var i :| 0 <= i < |q| && q[i].oid == oid;
      FlattenMember(b, Bid, BestFirst(Bid, b.bids.Keys), i);
    }
    SideRebuilds(b, Ask, half);
    var r := AddAll(half, SideOrders(b, Ask));
    forall side, px ensures QueueAt(r, side, px) == QueueAt(b, side, px) {
      assert QueueAt(half, Bid, px) == QueueAt(b, Bid, px);
    }
    QueuesDetermineBook(r, b);
  }

  /** Orders appended to both tails under the same oids, none of which the book itself holds. */
  ghost predicate TriggerTails(sn: Snapshot, ta: seq<Order>, tb: seq<Order>) {
    && (forall oid :: HasOid(ta, oid) <==> HasOid(tb, oid))
    && (forall oid :: HasOid(ta, oid) ==> !HasOid(sn.bids, oid) && !HasOid(sn.asks, oid))
  }

  lemma HasOidConcat(a: seq<Order>, b: seq<Order>, oid: Oid)
    ensures HasOid(a + b, oid) <==> HasOid(a, oid) || HasOid(b, oid)
  {
    if HasOid(a + b, oid) {
      var i :| 0 <= i < |a + b| && (a + b)[i].oid == oid;
      assert if i < |a| then a[i].oid == oid else b[i - |a|].oid == oid;
    }
    if HasOid(a, oid) {
      var i :| 0 <= i < |a| && a[i].oid == oid;
      assert (a + b)[i].oid == oid;
    }
    if HasOid(b, oid) {
      var i :| 0 <= i < |b| && b[i].oid == oid;
      assert (a + b)[|a| + i].oid == oid;
    }
  }

  lemma {:induction false} TailIsPopped(q: seq<Order>, t: seq<Order>, dump: Snapshot)
    requires forall i :: 0 <= i < |t| ==> HasOid(dump.bids, t[i].oid) && HasOid(dump.asks, t[i].oid)
    requires q != [] ==> !(HasOid(dump.bids, q[|q| - 1].oid) && HasOid(dump.asks, q[|q| - 1].oid))
    ensures KeptLen(q + t, dump) == |q|
  {
    if t == [] {
      assert q + t == q;
    } else {
      assert (q + t)[..|q + t| - 1] == q + t[..|t| - 1];
      TailIsPopped(q, t[..|t| - 1], dump);
    }
  }

  /** Stripping a dump takes off exactly the appended trigger orders. */
  lemma StripUndoesTails(sn: Snapshot, ta: seq<Order>, tb: seq<Order>)
    requires TriggerTails(sn, ta, tb)
    requires forall oid :: HasOid(sn.bids, oid) ==> !HasOid(sn.asks, oid)
    ensures Stripped(Snapshot(sn.bids + ta, sn.asks + tb)) == sn
  {
    var dump := Snapshot(sn.bids + ta, sn.asks + tb);
    forall oid
      ensures HasOid(dump.bids, oid) <==> HasOid(sn.bids, oid) || HasOid(ta, oid)
      ensures HasOid(dump.asks, oid) <==> HasOid(sn.asks, oid) || HasOid(tb, oid)
    {
      HasOidConcat(sn.bids, ta, oid);
      HasOidConcat(sn.asks, tb, oid);
    }
    assert forall i :: 0 <= i < |ta| ==> HasOid(ta, ta[i].oid);
    assert forall i :: 0 <= i < |tb| ==> HasOid(tb, tb[i].oid);
    assert forall i :: 0 <= i < |sn.bids| ==> HasOid(sn.bids, sn.bids[i].oid);
    assert forall i :: 0 <= i < |sn.asks| ==> HasOid(sn.asks, sn.asks[i].oid);
    TailIsPopped(sn.bids, ta, dump);
    TailIsPopped(sn.asks, tb, dump);
    assert (sn.bids + ta)[..|sn.bids|] == sn.bids && (sn.asks + tb)[..|sn.asks|] == sn.asks;
  }

  /** The two sides of a well-formed book share no oid, so there are no spurious triggers. */
  lemma SnapshotSidesAreDisjoint(b: Book, oid: Oid)
    requires BookInv(b) && HasOid(SideOrders(b, Bid), oid)
    ensures !HasOid(SideOrders(b, Ask), oid)
  {
    var bids, asks := SideOrders(b, Bid), SideOrders(b, Ask);
    var i :| 0 <= i < |bids| && bids[i].oid == oid;
    FlattenMember(b, Bid, BestFirst(Bid, b.bids.Keys), i);
    forall j | 0 <= j < |asks| ensures asks[j].oid != oid {
      FlattenMember(b, Ask, BestFirst(Ask, b.asks.Keys), j);
    }
  }

  /**
   Round trip: a book read out and rebuilt is the same book, queues, index and aggregates alike,
   with trigger stripping on or off, and with it on even when trigger orders were appended to both tails.
   */
  lemma SnapshotRoundTrip(b: Book, ta: seq<Order>, tb: seq<Order>)
    requires BookInv(b) && AllExact(b) && AllFit(b)
    requires TriggerTails(ToSnapshotInBand(b, WHOLE_BOOK), ta, tb)
    ensures var sn := ToSnapshotInBand(b, WHOLE_BOOK);
            && FromSnapshot(sn, false) == b
            && FromSnapshot(sn, true) == b
            && FromSnapshot(Snapshot(sn.bids + ta, sn.asks + tb), true) == b
  {
    var sn := ToSnapshotInBand(b, WHOLE_BOOK);
    WholeSnapshotIs(b);
    SidesRebuildBook(b);
    forall oid | HasOid(sn.bids, oid) ensures !HasOid(sn.asks, oid) {
      SnapshotSidesAreDisjoint(b, oid);
    }
    StripUndoesTails(sn, ta, tb);
    StripUndoesTails(sn, [], []);
    assert sn.bids + [] == sn.bids && sn.asks + [] == sn.asks;
  }
}
