/**
 What rests in a book, as a partial map from order id to order, and what each call does
 to that map. An order book is far more than this map (queue positions, aggregates), but
 this is the part on which all consumers must agree.
 */
module RestingMap {
  import opened Types
  import opened Levels
  import opened BookCore

  /** The resting order with this oid, if any. */
  function Resting(b: Book, oid: Oid): Option<Order> {
    if oid !in b.index then None
    else
      var Loc(side, px) := b.index[oid];
      var q := LevelOr(LevelsOf(b, side), px).queue;
      if Queued(q, oid) then Some(q[Find(q, oid)]) else None
  }

  /** No maker on the other side would trade with this order. */
  ghost predicate NoCross(b: Book, o: Order) {
    forall k :: k in LevelsOf(b, Opposite(o.side)) ==> !Crosses(o.side, o.px, k)
  }

  /** A queued order is the one that rests under its oid. */
  lemma QueuedRests(b: Book, side: Side, px: Px, i: nat)
    requires BookInv(b) && px in LevelsOf(b, side) && i < |LevelsOf(b, side)[px].queue|
    ensures Resting(b, LevelsOf(b, side)[px].queue[i].oid) == Some(LevelsOf(b, side)[px].queue[i])
  {
    assert OrderAt(b, side, px, i);
    LevelFacts(b, side, px);
    FindUnique(LevelsOf(b, side)[px].queue, i);
  }

  /** An oid rests exactly when it is indexed, and then at the level the index names. */
  lemma RestsIffIndexed(b: Book, oid: Oid)
    requires BookInv(b)
    ensures Resting(b, oid).Some? <==> oid in b.index
    ensures oid in b.index ==>
              var o := Resting(b, oid).value;
              o.oid == oid && o.sz > 0 && b.index[oid] == Loc(o.side, o.px)
              && o.px in LevelsOf(b, o.side) && o in LevelsOf(b, o.side)[o.px].queue
  {
    assert IndexAt(b, oid);
    if oid in b.index {
      var Loc(side, px) := b.index[oid];
      assert OrderAt(b, side, px, Find(LevelsOf(b, side)[px].queue, oid));
    }
  }

  lemma StillRests(b: Book, b': Book, x: Oid)
    requires BookInv(b) && BookInv(b') && x in b.index
    requires var o := Resting(b, x); o.Some? ==>
               o.value.px in LevelsOf(b', o.value.side) && o.value in LevelsOf(b', o.value.side)[o.value.px].queue
    ensures Resting(b', x) == Resting(b, x)
  {
    RestsIffIndexed(b, x);
    var o := Resting(b, x).value;
    var q := LevelsOf(b', o.side)[o.px].queue;
    var i :| 0 <= i < |q| && q[i] == o;
    QueuedRests(b', o.side, o.px, i);
  }

  lemma NoCrossNoMatch(b: Book, o: Order)
    requires NoCross(b, o)
    ensures MatchIncoming(b, o) == BookMatch(b, o.sz, [])
  {
    var keys := BestFirst(Opposite(o.side), LevelsOf(b, Opposite(o.side)).Keys);
    if keys != [] {
      assert keys[0] in keys;
    }
  }

  /** The level at the order's price gains it and loses nothing. */
  lemma RestLevelGrows(b: Book, o: Order, anchor: Option<Oid>)
    requires BookInv(b) && o.oid !in b.index
    ensures Grown(LevelOr(LevelsOf(b, o.side), o.px).queue, o, LevelsOf(Rest(b, o, anchor), o.side)[o.px].queue)
  {
    if o.px in LevelsOf(b, o.side) {
      UnindexedIsUnqueued(b, o.side, o.px, o.oid);
      LevelFacts(b, o.side, o.px);
    }
    RestGrows(LevelOr(LevelsOf(b, o.side), o.px), o, anchor);
  }

  lemma RestRests(b: Book, o: Order, anchor: Option<Oid>, x: Oid)
    requires BookInv(b) && o.oid !in b.index && o.sz > 0 && NoCross(b, o)
    ensures Resting(Rest(b, o, anchor), x) == if x == o.oid then Some(o) else Resting(b, x)
  {
    var b' := Rest(b, o, anchor);
    RestKeepsInv(b, o, anchor);
    RestLevelGrows(b, o, anchor);
    var q' := LevelsOf(b', o.side)[o.px].queue;
    if x == o.oid {
      var i :| 0 <= i < |q'| && q'[i] == o;
      QueuedRests(b', o.side, o.px, i);
    } else if x in b.index {
      RestsIffIndexed(b, x);
      StillRests(b, b', x);
    }
  }

  /** Adding an order that crosses nothing adds it to the map, unless it is already there or has no size. */
  lemma AddRests(b: Book, o: Order, anchor: Option<Oid>, x: Oid)
    requires BookInv(b) && NoCross(b, o)
    ensures Resting(Add(b, o, anchor).0, x)
         == if x == o.oid && o.oid !in b.index && o.sz > 0 then Some(o) else Resting(b, x)
  {
    NoCrossNoMatch(b, o);
    assert o.(sz := o.sz) == o;
    if o.oid !in b.index && o.sz > 0 {
      RestRests(b, o, anchor, x);
    }
  }

  lemma CutKeepsOthers(q: seq<Order>, p: nat, i: nat)
    requires p < |q| && i < |q| && i != p
    ensures q[i] in q[..p] + q[p + 1..]
  {
    var q' := q[..p] + q[p + 1..];
    assert q'[if i < p then i else i - 1] == q[i];
  }

  lemma CancelRests(b: Book, oid: Oid, x: Oid)
    requires BookInv(b)
    ensures Resting(Cancel(b, oid).0, x) == if x == oid then None else Resting(b, x)
  {
    CancelKeepsInv(b, oid);
    RestsIffIndexed(b, x);
    RestsIffIndexed(b, oid);
    if oid in b.index && x != oid && x in b.index {
      var o, gone := Resting(b, x).value, Resting(b, oid).value;
      if Loc(o.side, o.px) == Loc(gone.side, gone.px) {
        var q := LevelsOf(b, o.side)[o.px].queue;
        CutKeepsOthers(q, Find(q, oid), Find(q, x));
      }
      StillRests(b, Cancel(b, oid).0, x);
    }
  }

  lemma ModifyRests(b: Book, oid: Oid, sz: Sz, x: Oid)
    requires BookInv(b)
    ensures Resting(Modify(b, oid, sz).0, x)
         == if x != oid || Resting(b, oid).None? then Resting(b, x)
            else if sz == 0 then None
            else Some(Resting(b, oid).value.(sz := sz))
  {
    RestsIffIndexed(b, oid);
    if sz == 0 {
      CancelRests(b, oid, x);
    } else if oid in b.index {
      ModifyKeepsInv(b, oid, sz);
      var b', o := Modify(b, oid, sz).0, Resting(b, oid).value;
      var q := LevelsOf(b, o.side)[o.px].queue;
      var p, q' := Find(q, oid), LevelsOf(b', o.side)[o.px].queue;
      if x == oid {
        QueuedRests(b', o.side, o.px, p);
      } else if x in b.index {
        RestsIffIndexed(b, x);
        var i := Find(LevelsOf(b, Resting(b, x).value.side)[Resting(b, x).value.px].queue, x);
        if b.index[x] == b.index[oid] {
          assert q'[i] == q[i];
        }
        StillRests(b, b', x);
      }
    }
  }
}
