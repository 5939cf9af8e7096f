/**
 What adding an order does, said of what rests before and after it: the makers its limit reaches
 trade in price-time priority, and what is left of it rests on its own side.
 */
module Adding {
  import opened Types
  import opened Levels
  import opened BookCore
  import opened RestingMap
  import opened Snapshots

  // ----- the makers of an order -----

  /** A buyer trades with asks at its limit or below, a seller with bids at its limit or above. */
  predicate Reaches(o: Order, maker: Order) {
    match o.side
    case Bid => maker.side == Ask && maker.px <= o.px
    case Ask => maker.side == Bid && maker.px >= o.px
  }

  /** The cheaper ask and the dearer bid go first; at one price the order queued in front. */
  predicate GoesFirst(b: Book, m: Order, n: Order) {
    if m.px == n.px then Find(QueueAt(b, m.side, m.px), m.oid) < Find(QueueAt(b, m.side, m.px), n.oid)
    else if m.side == Ask then m.px < n.px
    else n.px < m.px
  }

  ghost predicate IsMaker(b: Book, o: Order, maker: Order) {
    Resting(b, maker.oid) == Some(maker) && Reaches(o, maker)
  }

  ghost predicate Listed(b: Book, o: Order, ms: seq<Order>, oid: Oid) {
    Resting(b, oid).Some? && Reaches(o, Resting(b, oid).value) ==> Resting(b, oid).value in ms
  }

  /** All resting orders that an order's limit reaches, in the order in which it trades with them. */
  ghost predicate Makers(b: Book, o: Order, ms: seq<Order>) {
    && (forall i :: 0 <= i < |ms| ==> IsMaker(b, o, ms[i]))
    && (forall oid :: Listed(b, o, ms, oid))
    && (forall i, j :: 0 <= i < j < |ms| ==> GoesFirst(b, ms[i], ms[j]))
  }

  lemma {:induction false} FlattenIsQueued(levels: map<Px, Level>, keys: seq<Px>, i: nat) returns (px: Px, j: nat)
    requires i < |Flatten(levels, keys)|
    ensures px in keys && px in levels && j < |levels[px].queue| && levels[px].queue[j] == Flatten(levels, keys)[i]
  {
    var q := LevelOr(levels, keys[0]).queue;
    if i < |q| {
      px, j := keys[0], i;
    } else {
      px, j := FlattenIsQueued(levels, keys[1..], i - |q|);
    }
  }

  lemma {:induction false} QueuedIsFlattened(levels: map<Px, Level>, keys: seq<Px>, px: Px, o: Order)
    requires px in keys && px in levels && o in levels[px].queue
    ensures o in Flatten(levels, keys)
  {
    if px != keys[0] {
      QueuedIsFlattened(levels, keys[1..], px, o);
    }
  }

  lemma {:induction false} FlattenIsInOrder(b: Book, side: Side, keys: seq<Px>, i: nat, j: nat)
    requires BookInv(b) && Sorted(side, keys) && i < j < |Flatten(LevelsOf(b, side), keys)|
    ensures GoesFirst(b, Flatten(LevelsOf(b, side), keys)[i], Flatten(LevelsOf(b, side), keys)[j])
  {
    var q, later := QueueAt(b, side, keys[0]), Flatten(LevelsOf(b, side), keys[1..]);
    FlattenMember(b, side, keys, i);
    FlattenMember(b, side, keys, j);
    if j < |q| {
      assert LevelAt(b, side, keys[0]) && OrderAt(b, side, keys[0], i) && OrderAt(b, side, keys[0], j);
      FindUnique(q, i);
      FindUnique(q, j);
    } else if i >= |q| {
      FlattenIsInOrder(b, side, keys[1..], i - |q|, j - |q|);
    } else {
      assert OrderAt(b, side, keys[0], i);
      FlattenMember(b, side, keys[1..], j - |q|);
    }
  }

  /** The crossing levels read out best first are the makers. */
  lemma CrossingLevelsAreMakers(b: Book, o: Order, keys: seq<Px>)
    requires BookInv(b) && Sorted(Opposite(o.side), keys)
    requires forall p :: p in keys ==> Crosses(o.side, o.px, p)
    requires forall p :: p in LevelsOf(b, Opposite(o.side)) && Crosses(o.side, o.px, p) ==> p in keys
    ensures Makers(b, o, Flatten(LevelsOf(b, Opposite(o.side)), keys))
  {
    var side := Opposite(o.side);
    var ms := Flatten(LevelsOf(b, side), keys);
    forall i | 0 <= i < |ms|
      ensures IsMaker(b, o, ms[i])
    {
      FlattenMember(b, side, keys, i);
      var px, j := FlattenIsQueued(LevelsOf(b, side), keys, i);
      QueuedRests(b, side, px, j);
    }
    forall oid
      ensures Listed(b, o, ms, oid)
    {
      RestsIffIndexed(b, oid);
      if Resting(b, oid).Some? && Reaches(o, Resting(b, oid).value) {
        QueuedIsFlattened(LevelsOf(b, side), keys, Resting(b, oid).value.px, Resting(b, oid).value);
      }
    }
    forall i, j | 0 <= i < j < |ms|
      ensures GoesFirst(b, ms[i], ms[j])
    {
      FlattenIsInOrder(b, side, keys, i, j);
    }
  }

  // ----- what is left of each -----

  /** What is left of a maker with this much size ahead of it, when a taker of size `sz` comes. */
  function Left(maker: Order, ahead: nat, sz: Sz): Option<Order> {
    if sz <= ahead then Some(maker)
    else if ahead + maker.sz <= sz then None
    else Some(maker.(sz := ahead + maker.sz - sz))
  }

  lemma {:induction false} SumOfPrefix(q: seq<Order>, i: nat, j: nat)
    requires i < j <= |q|
    ensures SumSz(q[..i]) + q[i].sz <= SumSz(q[..j])
  {
    assert q[..j] == q[..i] + q[i..j] && q[i..j][0] == q[i];
    SumConcat(q[..i], q[i..j]);
  }

  /** Filling a queue from the front, said of each order in it. */
  lemma EachIsLeft(q: seq<Order>, sz: Sz, r: Fill, k: nat, i: nat)
    requires FillsFirst(q, sz, r, k) && AllPositive(q) && i < |q|
    ensures i < k ==> Left(q[i], SumSz(q[..i]), sz).None? && q[i].oid in r.filled
    ensures i >= k ==> i - k < |r.queue| && Left(q[i], SumSz(q[..i]), sz) == Some(r.queue[i - k]) && r.queue[i - k].oid == q[i].oid
  {
    if i < k {
      SumOfPrefix(q, i, k);
      assert r.filled[i] == q[i].oid;
    } else if i > k {
      SumOfPrefix(q, k, i);
    } else {
      assert q[k].(sz := q[k].sz) == q[k];
    }
  }

  lemma FilledIsWhole(q: seq<Order>, sz: Sz, r: Fill, k: nat)
    requires FillsFirst(q, sz, r, k)
    ensures r.rest == SatSub(sz, SumSz(q))
    ensures forall x :: x in r.filled ==> HasOid(q, x)
  {
    if k < |q| {
      SumOfPrefix(q, k, |q|);
    }
    assert q[..|q|] == q;
    forall x | x in r.filled
      ensures HasOid(q, x)
    {
      var i :| 0 <= i < |r.filled| && r.filled[i] == x;
      assert q[i].oid == x;
    }
  }

  /** Matching alone: every maker is left as its place says, and no other order is touched. */
  lemma MatchLeaves(b: Book, o: Order) returns (ms: seq<Order>, left: seq<Order>)
    requires BookInv(b)
    ensures var m := MatchIncoming(b, o);
            && BookInv(m.book)
            && Makers(b, o, ms) && Makers(m.book, o, left)
            && m.rest == SatSub(o.sz, SumSz(ms))
            && SumSz(ms) - SumSz(left) == o.sz - m.rest
            && (forall i :: 0 <= i < |ms| ==> Resting(m.book, ms[i].oid) == Left(ms[i], SumSz(ms[..i]), o.sz))
            && (forall x :: !HasOid(ms, x) ==> Resting(m.book, x) == Resting(b, x))
  {
    var side, m := Opposite(o.side), MatchIncoming(b, o);
    var keys := BestFirst(side, LevelsOf(b, side).Keys);
    var c := Crossing(o.side, o.px, keys);
    CrossingIsAPrefix(o.side, o.px, keys);
    MatchKeepsInv(b, o.side, keys, o.px, o.sz);
    var k := MatchIsPriceTime(b, o);
    ms, left := Flatten(LevelsOf(b, side), c), Flatten(LevelsOf(m.book, side), c);
    CrossingLevelsAreMakers(b, o, c);
    CrossingLevelsAreMakers(m.book, o, c);
    FlattenIsPositive(b, side, c);
    FilledIsWhole(ms, o.sz, Fill(left, m.rest, m.filled), k);
    forall i | 0 <= i < |ms|
      ensures Resting(m.book, ms[i].oid) == Left(ms[i], SumSz(ms[..i]), o.sz)
    {
      EachIsLeft(ms, o.sz, Fill(left, m.rest, m.filled), k, i);
      if i >= k {
        assert IsMaker(m.book, o, left[i - k]);
      }
    }
    forall x | !HasOid(ms, x)
      ensures Resting(m.book, x) == Resting(b, x)
    {
      OtherStillRests(b, o, m.book, ms, x);
    }
  }

  /** An order that is none of the makers stays where it is when only the makers' levels change. */
  lemma OtherStillRests(b: Book, o: Order, b': Book, ms: seq<Order>, x: Oid)
    requires BookInv(b) && BookInv(b') && Makers(b, o, ms) && !HasOid(ms, x)
    requires forall p :: !Crosses(o.side, o.px, p) && p in LevelsOf(b, Opposite(o.side)) ==>
               p in LevelsOf(b', Opposite(o.side)) && LevelsOf(b', Opposite(o.side))[p] == LevelsOf(b, Opposite(o.side))[p]
    requires LevelsOf(b', o.side) == LevelsOf(b, o.side)
    requires x in b'.index <==> x in b.index
    ensures Resting(b', x) == Resting(b, x)
  {
    RestsIffIndexed(b, x);
    if x in b.index {
      var r := Resting(b, x).value;
      assert Listed(b, o, ms, x);
      assert r !in ms;
      assert Reaches(o, r) <==> r.side == Opposite(o.side) && Crosses(o.side, o.px, r.px);
      StillRests(b, b', x);
    }
  }

  // ----- the whole call -----

  /** Where an order goes in a queue: right in front of its anchor when that is queued, else at the back. */
  ghost predicate Spliced(q: seq<Order>, o: Order, anchor: Option<Oid>, q': seq<Order>, p: nat) {
    && p <= |q| && q' == q[..p] + [o] + q[p..]
    && (if anchor.Some? && HasOid(q, anchor.value) then p < |q| && q[p].oid == anchor.value else p == |q|)
  }

  lemma RestsAtAnchor(l: Level, o: Order, anchor: Option<Oid>) returns (p: nat)
    requires !HasOid(l.queue, o.oid)
    ensures Spliced(l.queue, o, anchor, RestAt(l, o, anchor).queue, p)
    ensures FallsBack(l, anchor) <==> anchor.Some? && !HasOid(l.queue, anchor.value)
  {
    QueuedIff(l.queue, o.oid);
    p := |l.queue|;
    if anchor.Some? {
      QueuedIff(l.queue, anchor.value);
      if Queued(l.queue, anchor.value) {
        p := Find(l.queue, anchor.value);
      }
    }
    assert l.queue[..|l.queue|] + [o] + l.queue[|l.queue|..] == l.queue + [o];
  }

  /** An order whose oid already rests is refused. */
  lemma KnownOidIsRefused(b: Book, o: Order, anchor: Option<Oid>)
    requires BookInv(b) && Resting(b, o.oid).Some?
    ensures Add(b, o, anchor) == (b, false)
  {
    RestsIffIndexed(b, o.oid);
  }

  /** An add is a match and, when something is left, a rest that crosses nothing. */
  lemma RemainderRests(b: Book, o: Order, anchor: Option<Oid>)
    requires BookInv(b) && o.oid !in b.index
    ensures var (b', fellBack), m := Add(b, o, anchor), MatchIncoming(b, o);
            && o.oid !in m.book.index && LevelsOf(m.book, o.side) == LevelsOf(b, o.side)
            && (m.rest == 0 ==> b' == m.book && !fellBack)
            && (m.rest > 0 ==>
                  && b' == Rest(m.book, o.(sz := m.rest), anchor)
                  && fellBack == FallsBack(LevelOr(LevelsOf(b, o.side), o.px), anchor))
            && (forall x :: Resting(b', x) == if x == o.oid && m.rest > 0 then Some(o.(sz := m.rest)) else Resting(m.book, x))
  {
    var m := MatchIncoming(b, o);
    var keys := BestFirst(Opposite(o.side), LevelsOf(b, Opposite(o.side)).Keys);
    MatchKeepsInv(b, o.side, keys, o.px, o.sz);
    if m.rest > 0 {
      var taker := o.(sz := m.rest);
      forall p | p in LevelsOf(m.book, Opposite(o.side))
        ensures !Crosses(o.side, o.px, p)
      {
        assert p in keys;
      }
      assert NoCross(m.book, taker);
      forall x
        ensures Resting(Rest(m.book, taker, anchor), x) == if x == o.oid then Some(taker) else Resting(m.book, x)
      {
        RestRests(m.book, taker, anchor, x);
      }
    }
  }

  /**
   Adding an order, whatever it crosses. The makers its limit reaches lose size from the front, each
   what the taker still has when its turn comes; the taker rests with what they could not fill, if
   anything; no other order is touched; and taker and makers lose the same.
   */
  lemma AddTradesThenRests(b: Book, o: Order, anchor: Option<Oid>) returns (ms: seq<Order>, left: seq<Order>)
    requires BookInv(b) && Resting(b, o.oid).None?
    ensures var b' := Add(b, o, anchor).0;
            && Makers(b, o, ms) && Makers(b', o, left)
            && Resting(b', o.oid) == (if o.sz > SumSz(ms) then Some(o.(sz := o.sz - SumSz(ms))) else None)
            && (forall i :: 0 <= i < |ms| ==> Resting(b', ms[i].oid) == Left(ms[i], SumSz(ms[..i]), o.sz))
            && (forall x :: x != o.oid && !HasOid(ms, x) ==> Resting(b', x) == Resting(b, x))
            && SumSz(ms) - SumSz(left) == Min(o.sz, SumSz(ms))
  {
    RestsIffIndexed(b, o.oid);
    var m := MatchIncoming(b, o);
    ms, left := MatchLeaves(b, o);
    forall i | 0 <= i < |ms|
      ensures ms[i].oid != o.oid
    {
      assert IsMaker(b, o, ms[i]);
    }
    RemainderRests(b, o, anchor);
    if m.rest > 0 {
      RestKeepsMakers(m.book, o, Add(b, o, anchor).0, left);
    }
  }

  lemma RestKeepsMakers(b: Book, o: Order, b': Book, ms: seq<Order>)
    requires Makers(b, o, ms) && LevelsOf(b', Opposite(o.side)) == LevelsOf(b, Opposite(o.side))
    requires forall x :: x != o.oid ==> Resting(b', x) == Resting(b, x)
    requires Resting(b, o.oid).None? && Resting(b', o.oid).Some? && Resting(b', o.oid).value.side == o.side
    ensures Makers(b', o, ms)
  {
    forall i | 0 <= i < |ms|
      ensures IsMaker(b', o, ms[i])
    {
      assert IsMaker(b, o, ms[i]);
    }
    forall oid
      ensures Listed(b', o, ms, oid)
    {
      assert Listed(b, o, ms, oid);
    }
    forall i, j | 0 <= i < j < |ms|
      ensures GoesFirst(b', ms[i], ms[j])
    {
      assert IsMaker(b, o, ms[i]) && IsMaker(b, o, ms[j]) && GoesFirst(b, ms[i], ms[j]);
    }
  }

  /**
   Where the taker's remainder rests: its own level gains it, right in front of the anchor when that is
   queued there and at the back otherwise; the other levels of its side are as they were; and the
   fallback is reported exactly when the remainder rests without the anchor it named.
   */
  lemma AddPlacesTheRemainder(b: Book, o: Order, anchor: Option<Oid>, px: Px) returns (p: nat)
    requires BookInv(b) && Resting(b, o.oid).None?
    ensures var (b', fellBack) := Add(b, o, anchor);
            var taker, q := Resting(b', o.oid), QueueAt(b, o.side, o.px);
            && (if px == o.px && taker.Some? then Spliced(q, taker.value, anchor, QueueAt(b', o.side, px), p)
                else QueueAt(b', o.side, px) == QueueAt(b, o.side, px))
            && (fellBack <==> taker.Some? && anchor.Some? && !HasOid(q, anchor.value))
  {
    RestsIffIndexed(b, o.oid);
    var m, l := MatchIncoming(b, o), LevelOr(LevelsOf(b, o.side), o.px);
    RemainderRests(b, o, anchor);
    if o.px in LevelsOf(b, o.side) {
      UnindexedIsUnqueued(b, o.side, o.px, o.oid);
    }
    QueuedIff(l.queue, o.oid);
    p := RestsAtAnchor(l, o.(sz := m.rest), anchor);
    RestedQueue(m.book, o.(sz := m.rest), anchor, px);
  }

  lemma RestedQueue(b: Book, o: Order, anchor: Option<Oid>, px: Px)
    ensures QueueAt(Rest(b, o, anchor), o.side, px)
         == if px == o.px then RestAt(LevelOr(LevelsOf(b, o.side), px), o, anchor).queue else QueueAt(b, o.side, px)
  {
  }
}
