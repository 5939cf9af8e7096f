/**
 A price level: a FIFO queue of orders with a running size aggregate, and how an
 incoming order is filled against it.
 */
module Levels {
  import opened Types
  import opened SlabList

  datatype Order = Order(coin: Coin, oid: Oid, side: Side, px: Px, sz: Sz)

  /** What a price level holds: the queue in time priority, and the aggregate read by BBO and L2. */
  datatype Level = Level(queue: seq<Order>, total: nat)

  const EMPTY_LEVEL := Level([], 0)

  /** Position of an oid in a queue, or its length when it is not queued. */
  function Find(q: seq<Order>, oid: Oid): (i: nat)
    ensures i <= |q|
    ensures i < |q| ==> q[i].oid == oid
    ensures forall j :: 0 <= j < i ==> q[j].oid != oid
  {
    if q == [] then 0 else if q[0].oid == oid then 0 else 1 + Find(q[1..], oid)
  }

  predicate Queued(q: seq<Order>, oid: Oid) {
    Find(q, oid) < |q|
  }

  predicate DistinctOids(q: seq<Order>) {
    forall i, j :: 0 <= i < j < |q| ==> q[i].oid != q[j].oid
  }

  function SumSz(q: seq<Order>): nat {
    if q == [] then 0 else q[0].sz + SumSz(q[1..])
  }

  predicate AllPositive(q: seq<Order>) {
    forall i :: 0 <= i < |q| ==> q[i].sz > 0
  }

  /** The aggregate is the sum over the queue. */
  predicate Exact(l: Level) {
    l.total == SumSz(l.queue)
  }

  // ----- mutators -----

  function PushBack(l: Level, o: Order): Level {
    if Queued(l.queue, o.oid) then l else Level(l.queue + [o], SatAdd(l.total, o.sz))
  }

  function InsertBefore(l: Level, anchor: Oid, o: Order): Level {
    if Queued(l.queue, o.oid) || !Queued(l.queue, anchor) then l
    else
      var p := Find(l.queue, anchor);
      Level(l.queue[..p] + [o] + l.queue[p..], SatAdd(l.total, o.sz))
  }

  function Remove(l: Level, oid: Oid): Level {
    if !Queued(l.queue, oid) then l
    else
      var p := Find(l.queue, oid);
      Level(l.queue[..p] + l.queue[p + 1..], SatSub(l.total, l.queue[p].sz))
  }

  function ModifySz(l: Level, oid: Oid, sz: Sz): Level {
    if !Queued(l.queue, oid) then l
    else
      var p := Find(l.queue, oid);
      Level(l.queue[p := l.queue[p].(sz := sz)], SatAdd(SatSub(l.total, l.queue[p].sz), sz))
  }

  // ----- sums -----

  lemma {:induction false} SumConcat(a: seq<Order>, b: seq<Order>)
    ensures SumSz(a + b) == SumSz(a) + SumSz(b)
  {
    if a == [] {
      assert a + b == b;
    } else {
      assert (a + b)[1..] == a[1..] + b;
      SumConcat(a[1..], b);
    }
  }

  lemma SumAt(q: seq<Order>, p: nat)
    requires p < |q|
    ensures SumSz(q) == SumSz(q[..p]) + q[p].sz + SumSz(q[p + 1..])
  {
    assert q == q[..p] + q[p..] && q[p..][1..] == q[p + 1..];
    SumConcat(q[..p], q[p..]);
  }

  /** Appending or splicing keeps the aggregate exact precisely when the new sum still fits 64 bits. */
  lemma PushKeepsExact(l: Level, o: Order)
    requires Exact(l) && !Queued(l.queue, o.oid)
    ensures Exact(PushBack(l, o)) <==> SumSz(l.queue) + o.sz <= U64_MAX
    ensures SumSz(PushBack(l, o).queue) == SumSz(l.queue) + o.sz
  {
    SumConcat(l.queue, [o]);
  }

  lemma InsertKeepsExact(l: Level, anchor: Oid, o: Order)
    requires Exact(l) && !Queued(l.queue, o.oid) && Queued(l.queue, anchor)
    ensures Exact(InsertBefore(l, anchor, o)) <==> SumSz(l.queue) + o.sz <= U64_MAX
    ensures SumSz(InsertBefore(l, anchor, o).queue) == SumSz(l.queue) + o.sz
  {
    var p, q := Find(l.queue, anchor), l.queue;
    assert q == q[..p] + q[p..];
    SumConcat(q[..p], q[p..]);
    SumConcat(q[..p] + [o], q[p..]);
    SumConcat(q[..p], [o]);
  }

  lemma RemoveKeepsExact(l: Level, oid: Oid)
    requires Exact(l)
    ensures Exact(Remove(l, oid)) && SumSz(Remove(l, oid).queue) <= SumSz(l.queue)
  {
    if Queued(l.queue, oid) {
      var p := Find(l.queue, oid);
      SumAt(l.queue, p);
      SumConcat(l.queue[..p], l.queue[p + 1..]);
    }
  }

  lemma ModifyKeepsExact(l: Level, oid: Oid, sz: Sz)
    requires Exact(l) && Queued(l.queue, oid)
    ensures var sum := SumSz(ModifySz(l, oid, sz).queue);
            && sum == SumSz(l.queue) - l.queue[Find(l.queue, oid)].sz + sz
            && (Exact(ModifySz(l, oid, sz)) <==> sum <= U64_MAX)
  {
    var p := Find(l.queue, oid);
    var q' := ModifySz(l, oid, sz).queue;
    SumAt(l.queue, p);
    SumAt(q', p);
    assert q'[..p] == l.queue[..p] && q'[p + 1..] == l.queue[p + 1..];
  }

  /**
   Past 64 bits the debug check of the source compares with a saturating fold. Insertions keep
   that weaker equality; a removal from an overfull level breaks it.
   */
  lemma SaturatedRemoveDrifts(l: Level, oid: Oid)
    requires l.total == Min(SumSz(l.queue), U64_MAX) && Queued(l.queue, oid)
    requires 0 < l.queue[Find(l.queue, oid)].sz <= U64_MAX
    ensures Remove(l, oid).total == Min(SumSz(Remove(l, oid).queue), U64_MAX) <==> SumSz(l.queue) <= U64_MAX
  {
    var p := Find(l.queue, oid);
    SumAt(l.queue, p);
    SumConcat(l.queue[..p], l.queue[p + 1..]);
  }

  /** An instance: two orders of half the range are pushed, saturating the aggregate, and one leaves; it is short by one. */
  lemma HalfRangeOrdersDrift(a: Order, b: Order)
    requires a.oid != b.oid && a.sz == b.sz == 0x8000_0000_0000_0000
    ensures var l := PushBack(PushBack(Level([], 0), a), b);
            && l.total == U64_MAX
            && Remove(l, b.oid) == Level([a], a.sz - 1) && SumSz([a]) == a.sz
  {
    assert [] + [a] == [a] && [a] + [b] == [a, b];
    assert [a, b][1..] == [b] && Find([b], b.oid) == 0 && Find([a, b], b.oid) == 1;
    assert [a, b][..1] + [a, b][2..] == [a];
  }

  // ----- filling an incoming order -----

  /** Outcome of matching: what is left of the makers and of the taker, and who was filled. */
  datatype Fill = Fill(queue: seq<Order>, rest: Sz, filled: seq<Oid>)

  /** `fill` on the head maker over and over, removing it when it is exhausted, until the taker is. */
  function FillQueue(q: seq<Order>, sz: Sz): (r: Fill)
    ensures r.rest <= sz
  {
    if q == [] then Fill([], sz, [])
    else
      var traded := Min(sz, q[0].sz);
      if q[0].sz > traded then Fill([q[0].(sz := q[0].sz - traded)] + q[1..], sz - traded, [])
      else if sz == traded then Fill(q[1..], 0, [q[0].oid])
      else
        var r := FillQueue(q[1..], sz - traded);
        Fill(r.queue, r.rest, [q[0].oid] + r.filled)
  }

  /**
   Price-time priority, said outright: the first k makers are filled completely, maker k (if the
   taker was exhausted there) partly, nobody else is touched.
   */
  ghost predicate FillsFirst(q: seq<Order>, sz: Sz, r: Fill, k: nat) {
    && k <= |q|
    && SumSz(q[..k]) <= sz
    && r.filled == Oids(q[..k])
    && (if k == |q| then r.queue == [] && r.rest == sz - SumSz(q)
        else
          && sz < SumSz(q[..k]) + q[k].sz
          && r.queue == [q[k].(sz := SumSz(q[..k]) + q[k].sz - sz)] + q[k + 1..]
          && r.rest == 0)
  }

  function Oids(q: seq<Order>): (r: seq<Oid>)
    ensures |r| == |q| && forall i :: 0 <= i < |q| ==> r[i] == q[i].oid
  {
    if q == [] then [] else [q[0].oid] + Oids(q[1..])
  }

  lemma {:induction false} FillIsPriceTime(q: seq<Order>, sz: Sz) returns (k: nat)
    requires AllPositive(q)
    ensures FillsFirst(q, sz, FillQueue(q, sz), k)
  {
    if q == [] || q[0].sz > sz {
      k := 0;
      assert q != [] ==> [q[0]] + q[1..] == q;
    } else if q[0].sz == sz {
      k := 1;
      assert q[..1] == [q[0]] && q[..1][1..] == [];
      assert SumSz(q[..1]) == q[0].sz;
      if |q| > 1 {
        assert [q[1].(sz := q[1].sz)] + q[2..] == q[1..];
      } else {
        assert q == q[..1];
      }
    } else {
      var j := FillIsPriceTime(q[1..], sz - q[0].sz);
      k := j + 1;
      assert q[..k][1..] == q[1..][..j] && q[..k][0] == q[0];
      if k < |q| {
        assert q[1..][j + 1..] == q[k + 1..];
      }
    }
  }

  /** Whatever the taker loses the makers lose. */
  lemma {:induction false} FillConserves(q: seq<Order>, sz: Sz)
    ensures var r := FillQueue(q, sz); SumSz(q) - SumSz(r.queue) == sz - r.rest
    ensures FillQueue(q, sz).rest > 0 ==> FillQueue(q, sz).queue == []
  {
    if q != [] {
      var traded := Min(sz, q[0].sz);
      if q[0].sz > traded {
        var r := FillQueue(q, sz);
        assert r.queue[1..] == q[1..];
      } else if sz != traded {
        FillConserves(q[1..], sz - traded);
      }
    }
  }

  /** Matching at level granularity, as PriceLevel::match_against does it. */
  function MatchLevel(l: Level, sz: Sz): (Level, Fill) {
    var r := FillQueue(l.queue, sz);
    (Level(r.queue, SatSub(l.total, sz - r.rest)), r)
  }

  /** Matching never hurts the aggregate: it shrinks by exactly what was traded. */
  lemma MatchKeepsExact(l: Level, sz: Sz)
    requires Exact(l)
    ensures Exact(MatchLevel(l, sz).0) && SumSz(MatchLevel(l, sz).0.queue) <= SumSz(l.queue)
  {
    FillConserves(l.queue, sz);
  }

  // ----- the level as the book holds it: a linked list and a counter -----

  ghost function Values(c: seq<(Oid, Order)>): (q: seq<Order>)
    ensures |q| == |c| && forall i :: 0 <= i < |c| ==> q[i] == c[i].1
  {
    seq(|c|, i requires 0 <= i < |c| => c[i].1)
  }

  /** Every order is filed under its own oid. */
  ghost predicate Keyed(c: seq<(Oid, Order)>) {
    forall i :: 0 <= i < |c| ==> c[i].0 == c[i].1.oid
  }

  lemma SamePosition(c: seq<(Oid, Order)>, oid: Oid)
    requires Keyed(c)
    ensures IndexOf(c, oid) == Find(Values(c), oid)
  {
    var i, j := IndexOf(c, oid), Find(Values(c), oid);
    assert i < |c| ==> Values(c)[i].oid == oid;
    assert j < |c| ==> c[j].0 == oid;
  }

  /** Splicing and cutting pairs splices and cuts the orders. */
  lemma ValuesOf(c: seq<(Oid, Order)>, p: nat, o: Order)
    requires p <= |c| && Keyed(c)
    ensures Keyed(c[..p] + [(o.oid, o)] + c[p..])
    ensures Values(c[..p] + [(o.oid, o)] + c[p..]) == Values(c)[..p] + [o] + Values(c)[p..]
    ensures p < |c| ==> Keyed(c[..p] + c[p + 1..]) && Values(c[..p] + c[p + 1..]) == Values(c)[..p] + Values(c)[p + 1..]
  {
  }

  lemma ValuesTail(c: seq<(Oid, Order)>)
    requires c != [] && Keyed(c)
    ensures Keyed(c[1..]) && Values(c[1..]) == Values(c)[1..]
  {
  }

  lemma ValuesHead(c: seq<(Oid, Order)>, c': seq<(Oid, Order)>, o: Order)
    requires c != [] && Keyed(c) && c[0].0 == o.oid && c' == [(c[0].0, o)] + c[1..]
    ensures Keyed(c') && Values(c') == [o] + Values(c)[1..]
  {
  }

  class PriceLevel {
    const orders: LinkedList<Oid, Order>
    var totalSz: nat

    ghost predicate Valid()
      reads this, orders
    {
      orders.Valid() && Keyed(orders.Contents())
    }

    ghost function View(): Level
      reads this, orders
      requires Valid()
    {
      Level(Values(orders.Contents()), totalSz)
    }

    constructor ()
      ensures Valid() && fresh(orders) && View() == EMPTY_LEVEL
    {
      orders := new LinkedList();
      totalSz := 0;
    }

    method PushBackOrder(order: Order) returns (inserted: bool)
      requires Valid()
      modifies this, orders
      ensures Valid() && View() == PushBack(old(View()), order)
      ensures inserted <==> !Queued(old(View()).queue, order.oid)
    {
      SamePosition(orders.Contents(), order.oid);
      inserted := orders.PushBack(order.oid, order);
      if inserted {
        totalSz := SatAdd(totalSz, order.sz);
      }
    }

    method InsertOrderBefore(anchor: Oid, order: Order) returns (inserted: bool)
      requires Valid()
      modifies this, orders
      ensures Valid() && View() == InsertBefore(old(View()), anchor, order)
      ensures inserted <==> !Queued(old(View()).queue, order.oid) && Queued(old(View()).queue, anchor)
    {
      SamePosition(orders.Contents(), order.oid);
      SamePosition(orders.Contents(), anchor);
      ValuesOf(orders.Contents(), IndexOf(orders.Contents(), anchor), order);
      inserted := orders.InsertBefore(anchor, order.oid, order);
      if inserted {
        totalSz := SatAdd(totalSz, order.sz);
      }
    }

    method RemoveOrder(oid: Oid) returns (removed: Option<Order>)
      requires Valid()
      modifies this, orders
      ensures Valid() && View() == Remove(old(View()), oid)
      ensures removed.Some? <==> Queued(old(View()).queue, oid)
      ensures removed.Some? ==> removed.value == old(View()).queue[Find(old(View()).queue, oid)]
    {
      SamePosition(orders.Contents(), oid);
      if Queued(View().queue, oid) {
        ValuesOf(orders.Contents(), Find(View().queue, oid), View().queue[Find(View().queue, oid)]);
      }
      removed := orders.RemoveNode(oid);
      if removed.Some? {
        totalSz := SatSub(totalSz, removed.value.sz);
      }
    }

    /** Remove an order, and say whether it was there and whether any is left. */
    method RemoveAndLook(oid: Oid) returns (found: bool, empty: bool)
      requires Valid()
      modifies this, orders
      ensures Valid() && View() == Remove(old(View()), oid)
      ensures found <==> Queued(old(View()).queue, oid)
      ensures empty <==> View().queue == []
    {
      var removed := RemoveOrder(oid);
      found := removed.Some?;
      empty := IsEmpty();
    }

    method ModifyOrderSz(oid: Oid, sz: Sz) returns (ok: bool)
      requires Valid()
      modifies this, orders
      ensures Valid() && View() == ModifySz(old(View()), oid, sz)
      ensures ok <==> Queued(old(View()).queue, oid)
    {
      SamePosition(orders.Contents(), oid);
      var found := orders.NodeValue(oid);
      if found.None? {
        return false;
      }
      var before := found.value.sz;
      orders.SetNodeValue(oid, found.value.(sz := sz));
      totalSz := SatAdd(SatSub(totalSz, before), sz);
      ok := true;
    }

    /** One round of matching: trade with the front maker, and drop it when it is exhausted. */
    method FillHead(sz: Sz, maker: Order) returns (traded: Sz)
      requires Valid() && View().queue != [] && maker == View().queue[0]
      modifies this, orders
      ensures Valid() && traded == Min(sz, maker.sz)
      ensures View() == Level((if maker.sz == traded then [] else [maker.(sz := maker.sz - traded)]) + old(View()).queue[1..],
                              SatSub(old(totalSz), traded))
    {
      ghost var c := orders.Contents();
      traded := Min(sz, maker.sz);
      var before, after := maker.sz, maker.sz - traded;
      totalSz := SatSub(totalSz, SatSub(before, after));
      if after == 0 {
        var removed := orders.RemoveFront();
        ValuesTail(c);
      } else {
        orders.SetHeadValue(maker.(sz := after));
        ValuesHead(c, orders.Contents(), maker.(sz := after));
      }
    }

    /** Fill the taker from the front of the queue until it or the queue is exhausted. */
    method MatchAgainst(taker: Order) returns (rest: Order, filled: seq<Oid>)
      requires Valid()
      modifies this, orders
      ensures Valid()
      ensures (View(), Fill(View().queue, rest.sz, filled)) == MatchLevel(old(View()), taker.sz)
      ensures rest == taker.(sz := rest.sz)
    {
      rest, filled := taker, [];
      var done := false;
      ghost var goal := FillQueue(View().queue, taker.sz);
      while !done
        invariant Valid() && rest == taker.(sz := rest.sz) && rest.sz <= taker.sz
        invariant totalSz == SatSub(old(totalSz), taker.sz - rest.sz)
        invariant done ==> goal == Fill(View().queue, rest.sz, filled)
        invariant !done ==> var r := FillQueue(View().queue, rest.sz); goal == Fill(r.queue, r.rest, filled + r.filled)
        decreases if done then 0 else |View().queue| + 1
      {
        var head := orders.HeadValue();
        if head.None? {
          done := true;
          assert FillQueue(View().queue, rest.sz).filled == [];
        } else {
          ghost var q, s, before := View().queue, rest.sz, filled;
          ghost var r := FillQueue(q, s);
          var maker := head.value;
          var traded := FillHead(rest.sz, maker);
          rest := rest.(sz := rest.sz - traded);
          if maker.sz == traded {
            filled := filled + [maker.oid];
            assert View().queue == q[1..];
            assert before + ([maker.oid] + FillQueue(q[1..], rest.sz).filled) == filled + FillQueue(q[1..], rest.sz).filled;
          }
          done := rest.sz == 0;
        }
      }
    }

    method IsEmpty() returns (empty: bool)
      requires Valid()
      ensures empty <==> View().queue == []
    {
      empty := orders.IsEmpty();
    }

    /** The size and count an aggregated view shows for this level. */
    method Aggregate() returns (sz: nat, n: nat)
      requires Valid()
      ensures sz == View().total && n == |View().queue|
    {
      sz := totalSz;
      n := orders.Len();
    }

    method Has(oid: Oid) returns (found: bool)
      requires Valid()
      ensures found <==> Queued(View().queue, oid)
    {
      SamePosition(orders.Contents(), oid);
      found := orders.ContainsKey(oid);
    }

    method CompactLevel() returns (rebuilt: bool)
      requires Valid()
      modifies this, orders
      ensures Valid() && View() == old(View())
    {
      rebuilt := orders.Compact();
    }
  }
}
