/** What a snapshot holds, said of the resting orders: each side in the order in which it would trade, inside the bounds. */
module Readout {
  import opened Types
  import opened Levels
  import opened BookCore
  import opened RestingMap
  import opened Snapshots
  import opened Adding

  /** A price inside the bounds that are given, either bound included. */
  predicate Within(min: Option<Px>, max: Option<Px>, px: Px) {
    (min == None || min.value <= px) && (max == None || px <= max.value)
  }

  ghost predicate Shown(b: Book, side: Side, min: Option<Px>, max: Option<Px>, q: seq<Order>, oid: Oid) {
    Resting(b, oid).Some? && Resting(b, oid).value.side == side && Within(min, max, Resting(b, oid).value.px)
    ==> Resting(b, oid).value in q
  }

  ghost predicate RestsWithin(b: Book, side: Side, min: Option<Px>, max: Option<Px>, o: Order) {
    Resting(b, o.oid) == Some(o) && o.side == side && Within(min, max, o.px)
  }

  /** Exactly the resting orders of one side inside the bounds, best price first and oldest first at a price. */
  ghost predicate ListsSide(b: Book, side: Side, min: Option<Px>, max: Option<Px>, q: seq<Order>) {
    && (forall i :: 0 <= i < |q| ==> RestsWithin(b, side, min, max, q[i]))
    && (forall oid :: Shown(b, side, min, max, q, oid))
    && (forall i, j :: 0 <= i < j < |q| ==> GoesFirst(b, q[i], q[j]))
  }

  lemma {:induction false} KeysInAre(side: Side, keys: seq<Px>, band: PxBand)
    requires Sorted(side, keys)
    ensures var ks := KeysIn(keys, band);
            Sorted(side, ks) && forall p :: p in ks <==> p in keys && Within(band.min, band.max, p)
  {
    if keys != [] {
      var later := KeysIn(keys[1..], band);
      KeysInAre(side, keys[1..], band);
      assert forall p :: p in keys <==> p == keys[0] || p in keys[1..];
      forall j | 0 <= j < |later|
        ensures Better(side, keys[0], later[j])
      {
        assert later[j] in later && later[j] in keys[1..];
      }
    }
  }

  lemma LevelsAreSide(b: Book, side: Side, min: Option<Px>, max: Option<Px>, keys: seq<Px>)
    requires BookInv(b) && Sorted(side, keys)
    requires forall p :: p in keys ==> Within(min, max, p)
    requires forall p :: p in LevelsOf(b, side) && Within(min, max, p) ==> p in keys
    ensures ListsSide(b, side, min, max, Flatten(LevelsOf(b, side), keys))
  {
    var q := Flatten(LevelsOf(b, side), keys);
    forall i | 0 <= i < |q|
      ensures RestsWithin(b, side, min, max, q[i])
    {
      FlattenMember(b, side, keys, i);
      var px, j := FlattenIsQueued(LevelsOf(b, side), keys, i);
      QueuedRests(b, side, px, j);
    }
    forall oid
      ensures Shown(b, side, min, max, q, oid)
    {
      RestsIffIndexed(b, oid);
      if Resting(b, oid).Some? && Resting(b, oid).value.side == side && Within(min, max, Resting(b, oid).value.px) {
        QueuedIsFlattened(LevelsOf(b, side), keys, Resting(b, oid).value.px, Resting(b, oid).value);
      }
    }
    forall i, j | 0 <= i < j < |q|
      ensures GoesFirst(b, q[i], q[j])
    {
      FlattenIsInOrder(b, side, keys, i, j);
    }
  }

  lemma NothingWithin(b: Book, side: Side, min: Option<Px>, max: Option<Px>)
    requires forall p :: !Within(min, max, p)
    ensures ListsSide(b, side, min, max, [])
  {
  }

  /** A snapshot of a book lists the resting bids and asks inside the bounds, in trading order. */
  lemma SnapshotListsOrders(b: Book, min: Option<Px>, max: Option<Px>)
    requires BookInv(b)
    ensures var sn := ToSnapshotInBand(b, PxBand(min, max));
            ListsSide(b, Bid, min, max, sn.bids) && ListsSide(b, Ask, min, max, sn.asks)
  {
    var band := PxBand(min, max);
    KeysInAre(Bid, BestFirst(Bid, b.bids.Keys), band);
    KeysInAre(Ask, BestFirst(Ask, b.asks.Keys), band);
    if Inverted(band) {
      NothingWithin(b, Bid, min, max);
      NothingWithin(b, Ask, min, max);
    } else {
      LevelsAreSide(b, Bid, min, max, KeysIn(BestFirst(Bid, b.bids.Keys), band));
      LevelsAreSide(b, Ask, min, max, KeysIn(BestFirst(Ask, b.asks.Keys), band));
    }
  }

  // ----- places in the queues -----

  /** The order with this oid has left the queue, and the others stand as they did. */
  ghost predicate TakenOut(q: seq<Order>, oid: Oid, q': seq<Order>) {
    exists i :: TakenOutAt(q, oid, q', i)
  }

  ghost predicate TakenOutAt(q: seq<Order>, oid: Oid, q': seq<Order>, i: nat) {
    i < |q| && q[i].oid == oid && q' == q[..i] + q[i + 1..]
  }

  /** The order with this oid has another size, at the place where it was. */
  ghost predicate ResizedAt(q: seq<Order>, oid: Oid, sz: Sz, q': seq<Order>, i: nat) {
    i < |q| && q[i].oid == oid && q' == q[..i] + [q[i].(sz := sz)] + q[i + 1..]
  }

  ghost predicate ResizedInPlace(q: seq<Order>, oid: Oid, sz: Sz, q': seq<Order>) {
    exists i :: ResizedAt(q, oid, sz, q', i)
  }

  /** A cancelled order leaves its queue, and no queue changes otherwise. */
  lemma CancelTakesOut(b: Book, oid: Oid, side: Side, px: Px)
    requires BookInv(b)
    ensures var q, q' := QueueAt(b, side, px), QueueAt(Cancel(b, oid).0, side, px);
            if Resting(b, oid).Some? && Resting(b, oid).value.side == side && Resting(b, oid).value.px == px then TakenOut(q, oid, q')
            else q' == q
  {
    RestsIffIndexed(b, oid);
    if oid in b.index {
      assert IndexAt(b, oid);
      var Loc(s, p) := b.index[oid];
      var q := QueueAt(b, s, p);
      assert TakenOutAt(q, oid, QueueAt(Cancel(b, oid).0, s, p), Find(q, oid));
    }
  }

  /** A resized order keeps its place, and no queue changes otherwise. */
  lemma ModifyKeepsPlace(b: Book, oid: Oid, sz: Sz, side: Side, px: Px)
    requires BookInv(b) && sz > 0
    ensures var q, q' := QueueAt(b, side, px), QueueAt(Modify(b, oid, sz).0, side, px);
            if Resting(b, oid).Some? && Resting(b, oid).value.side == side && Resting(b, oid).value.px == px then ResizedInPlace(q, oid, sz, q')
            else q' == q
  {
    RestsIffIndexed(b, oid);
    if oid in b.index {
      assert IndexAt(b, oid);
      var Loc(s, p) := b.index[oid];
      var q := QueueAt(b, s, p);
      var i := Find(q, oid);
      ReplacedAt(q, i, q[i].(sz := sz));
      assert ResizedAt(q, oid, sz, QueueAt(Modify(b, oid, sz).0, s, p), i);
    }
  }

  lemma ReplacedAt(q: seq<Order>, i: nat, o: Order)
    requires i < |q|
    ensures q[i := o] == q[..i] + [o] + q[i + 1..]
  {
  }
}
