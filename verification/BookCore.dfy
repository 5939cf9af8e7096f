/**
 The order book of one coin: price levels on each side and an index from order id
 to the level the order rests at. An incoming order is matched against the crossing
 makers in price-time priority before its remainder rests.
 */
module BookCore {
  import opened Types
  import opened Levels

  datatype Loc = Loc(side: Side, px: Px)

  datatype Book = Book(index: map<Oid, Loc>, bids: map<Px, Level>, asks: map<Px, Level>)

  const EMPTY_BOOK := Book(map[], map[], map[])

  function Opposite(side: Side): Side {
    if side == Ask then Bid else Ask
  }

  function LevelsOf(b: Book, side: Side): map<Px, Level> {
    if side == Ask then b.asks else b.bids
  }

  function WithLevels(b: Book, side: Side, levels: map<Px, Level>): Book {
    if side == Ask then b.(asks := levels) else b.(bids := levels)
  }

  // ----- price priority -----

  /** Price p is matched before price q on this side of the book. */
  predicate Better(side: Side, p: Px, q: Px) {
    if side == Ask then p < q else p > q
  }

  predicate IsBest(side: Side, keys: set<Px>, p: Px) {
    p in keys && forall q :: q in keys ==> q == p || Better(side, p, q)
  }

  lemma {:induction false} BestExists(side: Side, keys: set<Px>)
    requires keys != {}
    ensures exists p :: IsBest(side, keys, p)
  {
    var x :| x in keys;
    if keys == {x} {
      assert IsBest(side, keys, x);
    } else {
      BestExists(side, keys - {x});
      var y :| IsBest(side, keys - {x}, y);
      assert forall q :: q in keys ==> q == x || q in keys - {x};
      assert IsBest(side, keys, if Better(side, x, y) then x else y);
    }
  }

  /** First price in the iteration order of match_order: lowest ask, highest bid. */
  function Best(side: Side, keys: set<Px>): (p: Px)
    requires keys != {}
    ensures IsBest(side, keys, p)
  {
    BestExists(side, keys);
    var p :| IsBest(side, keys, p);
    p
  }

  predicate Sorted(side: Side, ks: seq<Px>) {
    forall i, j :: 0 <= i < j < |ks| ==> Better(side, ks[i], ks[j])
  }

  /** The prices of one side, best first. */
  function BestFirst(side: Side, keys: set<Px>): (ks: seq<Px>)
    ensures Sorted(side, ks)
    ensures forall k :: k in ks <==> k in keys
  {
    if keys == {} then []
    else
      var p := Best(side, keys);
      [p] + BestFirst(side, keys - {p})
  }

  /** There is only one way to list a set of prices best first. */
  lemma {:induction false} SortedIsUnique(side: Side, a: seq<Px>, b: seq<Px>)
    requires Sorted(side, a) && Sorted(side, b)
    requires forall k :: k in a <==> k in b
    ensures a == b
  {
    if a != [] || b != [] {
      var k := (a + b)[0];
      assert k in a && k in b;
      assert a[0] in b && b[0] in a;
      assert a[0] == b[0];
      forall k ensures k in a[1..] <==> k in b[1..] {
        assert k in a <==> k == a[0] || k in a[1..];
        assert k in b <==> k == b[0] || k in b[1..];
      }
      SortedIsUnique(side, a[1..], b[1..]);
    }
  }

  /** An incoming order at this limit trades with makers at price p. */
  predicate Crosses(takerSide: Side, limit: Px, p: Px) {
    if takerSide == Ask then p >= limit else p <= limit
  }

  // ----- operations -----

  /** Put a level back, forgetting the orders that left it; an empty level disappears. */
  function PutLevel(b: Book, side: Side, px: Px, l: Level, gone: set<Oid>): Book {
    WithLevels(b.(index := b.index - gone), side, PutIn(LevelsOf(b, side), px, l))
  }

  function PutIn(levels: map<Px, Level>, px: Px, l: Level): map<Px, Level> {
    if l.queue == [] then levels - {px} else levels[px := l]
  }

  datatype BookMatch = BookMatch(book: Book, rest: Sz, filled: seq<Oid>)

  function Elems(s: seq<Oid>): set<Oid> {
    set x | x in s
  }

  /** Work through the maker levels, best first, while they cross and the taker has size left. */
  function MatchBook(b: Book, takerSide: Side, keys: seq<Px>, limit: Px, sz: Sz): BookMatch
    decreases |keys|
  {
    var makers := LevelsOf(b, Opposite(takerSide));
    if keys == [] || !Crosses(takerSide, limit, keys[0]) || keys[0] !in makers then BookMatch(b, sz, [])
    else
      var (l, f) := MatchLevel(makers[keys[0]], sz);
      var b' := PutLevel(b, Opposite(takerSide), keys[0], l, Elems(f.filled));
      if f.rest == 0 then BookMatch(b', 0, f.filled)
      else
        var r := MatchBook(b', takerSide, keys[1..], limit, f.rest);
        BookMatch(r.book, r.rest, f.filled + r.filled)
  }

  function MatchIncoming(b: Book, o: Order): BookMatch {
    MatchBook(b, o.side, BestFirst(Opposite(o.side), LevelsOf(b, Opposite(o.side)).Keys), o.px, o.sz)
  }

  /** Rest an order at its level, in front of the anchor when that is given and queued there. */
  function RestAt(l: Level, o: Order, anchor: Option<Oid>): Level {
    if anchor.Some? && Queued(l.queue, anchor.value) then InsertBefore(l, anchor.value, o) else PushBack(l, o)
  }

  predicate FallsBack(l: Level, anchor: Option<Oid>) {
    anchor.Some? && !Queued(l.queue, anchor.value)
  }

  function LevelOr(levels: map<Px, Level>, px: Px): Level {
    if px in levels then levels[px] else EMPTY_LEVEL
  }

  function Rest(b: Book, o: Order, anchor: Option<Oid>): Book {
    var levels := LevelsOf(b, o.side);
    WithLevels(b.(index := b.index[o.oid := Loc(o.side, o.px)]), o.side, levels[o.px := RestAt(LevelOr(levels, o.px), o, anchor)])
  }

  /** add_order_before: the new book, and whether a given anchor could not be honoured. */
  function Add(b: Book, o: Order, anchor: Option<Oid>): (Book, bool) {
    if o.oid in b.index then (b, false)
    else
      var m := MatchIncoming(b, o);
      if m.rest == 0 then (m.book, false)
      else (Rest(m.book, o.(sz := m.rest), anchor), FallsBack(LevelOr(LevelsOf(m.book, o.side), o.px), anchor))
  }

  function Cancel(b: Book, oid: Oid): (Book, bool) {
    if oid !in b.index then (b, false)
    else
      var Loc(side, px) := b.index[oid];
      var levels := LevelsOf(b, side);
      if px !in levels then (b.(index := b.index - {oid}), false)
      else (PutLevel(b, side, px, Remove(levels[px], oid), {oid}), Queued(levels[px].queue, oid))
  }

  function Modify(b: Book, oid: Oid, sz: Sz): (Book, bool) {
    if sz == 0 then Cancel(b, oid)
    else if oid !in b.index then (b, false)
    else
      var Loc(side, px) := b.index[oid];
      var levels := LevelsOf(b, side);
      if px !in levels then (b, false)
      else (WithLevels(b, side, levels[px := ModifySz(levels[px], oid, sz)]), Queued(levels[px].queue, oid))
  }

  // ----- the representation invariant -----

  /** The i-th order queued at a level belongs there, has size left, and is indexed to that level. */
  ghost predicate OrderAt(b: Book, side: Side, px: Px, i: nat) {
    px in LevelsOf(b, side) && i < |LevelsOf(b, side)[px].queue| ==>
      var o := LevelsOf(b, side)[px].queue[i];
      && o.side == side && o.px == px && o.sz > 0
      && o.oid in b.index && b.index[o.oid] == Loc(side, px)
  }

  /** An indexed oid is queued at exactly the level the index names. */
  ghost predicate IndexAt(b: Book, oid: Oid) {
    oid in b.index ==>
      var loc := b.index[oid];
      loc.px in LevelsOf(b, loc.side) && Queued(LevelsOf(b, loc.side)[loc.px].queue, oid)
  }

  /** A level that is present is not empty and queues no oid twice. */
  ghost predicate LevelAt(b: Book, side: Side, px: Px) {
    px in LevelsOf(b, side) ==>
      LevelsOf(b, side)[px].queue != [] && DistinctOids(LevelsOf(b, side)[px].queue)
  }

  /** Best bid below best ask. */
  ghost predicate Uncrossed(b: Book) {
    forall p, q :: p in b.bids && q in b.asks ==> p < q
  }

  ghost predicate BookInv(b: Book) {
    && (forall side, px, i: nat :: OrderAt(b, side, px, i))
    && (forall oid :: IndexAt(b, oid))
    && (forall side, px :: LevelAt(b, side, px))
    && Uncrossed(b)
  }

  /** Every level's aggregate is the sum of its queue. */
  ghost predicate AllExact(b: Book) {
    forall side, px :: ExactAt(b, side, px)
  }

  ghost predicate ExactAt(b: Book, side: Side, px: Px) {
    px in LevelsOf(b, side) ==> Exact(LevelsOf(b, side)[px])
  }

  /** Every level's size sum fits 64 bits. */
  ghost predicate AllFit(b: Book) {
    forall side, px :: FitsAt(b, side, px)
  }

  ghost predicate FitsAt(b: Book, side: Side, px: Px) {
    px in LevelsOf(b, side) ==> SumSz(LevelsOf(b, side)[px].queue) <= U64_MAX
  }

  /** A queued order is somewhere in the queue, and conversely. */
  lemma QueuedIff(q: seq<Order>, oid: Oid)
    ensures Queued(q, oid) <==> exists i :: 0 <= i < |q| && q[i].oid == oid
  {
  }

  lemma FindUnique(q: seq<Order>, i: nat)
    requires i < |q| && DistinctOids(q)
    ensures Find(q, q[i].oid) == i
  {
  }

  /**
   What cancel, modify and matching have in common: the level keeps some of its orders, possibly
   with other sizes, and loses the others.
   */
  ghost predicate Reduced(q: seq<Order>, q': seq<Order>, gone: set<Oid>) {
    && DistinctOids(q')
    && (forall i :: 0 <= i < |q'| ==> q'[i].sz > 0 && q'[i].oid !in gone && Kept(q, q'[i]))
    && (forall oid :: oid in gone ==> Queued(q, oid))
    && (forall i :: 0 <= i < |q| ==> q[i].oid in gone || Queued(q', q[i].oid))
  }

  ghost predicate Kept(q: seq<Order>, o: Order) {
    exists j :: 0 <= j < |q| && o == q[j].(sz := o.sz)
  }

  lemma PutKeepsOrders(b: Book, side: Side, px: Px, l: Level, gone: set<Oid>, s: Side, p: Px, i: nat)
    requires BookInv(b) && px in LevelsOf(b, side) && Reduced(LevelsOf(b, side)[px].queue, l.queue, gone)
    ensures OrderAt(PutLevel(b, side, px, l, gone), s, p, i)
  {
    var b', q := PutLevel(b, side, px, l, gone), LevelsOf(b, side)[px].queue;
    if p in LevelsOf(b', s) && i < |LevelsOf(b', s)[p].queue| {
      if s == side && p == px {
        var o := l.queue[i];
        assert Kept(q, o);
        var j :| 0 <= j < |q| && o == q[j].(sz := o.sz);
        assert OrderAt(b, s, p, j);
      } else {
        assert OrderAt(b, s, p, i);
        assert OrderAt(b, side, px, Find(q, LevelsOf(b, s)[p].queue[i].oid));
      }
    }
  }

  lemma PutKeepsIndex(b: Book, side: Side, px: Px, l: Level, gone: set<Oid>, oid: Oid)
    requires BookInv(b) && px in LevelsOf(b, side) && Reduced(LevelsOf(b, side)[px].queue, l.queue, gone)
    ensures IndexAt(PutLevel(b, side, px, l, gone), oid)
  {
    var q := LevelsOf(b, side)[px].queue;
    if oid in b.index && oid !in gone {
      assert IndexAt(b, oid);
      if b.index[oid] == Loc(side, px) {
        assert q[Find(q, oid)].oid == oid;
      }
    }
  }

  lemma PutKeepsInv(b: Book, side: Side, px: Px, l: Level, gone: set<Oid>)
    requires BookInv(b) && px in LevelsOf(b, side) && Reduced(LevelsOf(b, side)[px].queue, l.queue, gone)
    ensures BookInv(PutLevel(b, side, px, l, gone))
  {
    var b' := PutLevel(b, side, px, l, gone);
    forall s, p, i: nat ensures OrderAt(b', s, p, i) {
      PutKeepsOrders(b, side, px, l, gone, s, p, i);
    }
    forall oid ensures IndexAt(b', oid) {
      PutKeepsIndex(b, side, px, l, gone, oid);
    }
    forall s, p ensures LevelAt(b', s, p) {
      assert LevelAt(b, s, p);
    }
  }

  // ----- cancel and modify -----

  lemma CutIsDistinct(q: seq<Order>, p: nat)
    requires DistinctOids(q) && p < |q|
    ensures DistinctOids(q[..p] + q[p + 1..])
  {
    var q' := q[..p] + q[p + 1..];
    forall i, j | 0 <= i < j < |q'| ensures q'[i].oid != q'[j].oid {
      assert q'[i] == q[if i < p then i else i + 1] && q'[j] == q[if j < p then j else j + 1];
    }
  }

  lemma CutKeeps(q: seq<Order>, p: nat, i: nat)
    requires DistinctOids(q) && p < |q| && i < |q| && i != p
    ensures Queued(q[..p] + q[p + 1..], q[i].oid)
  {
    var q' := q[..p] + q[p + 1..];
    assert q'[if i < p then i else i - 1] == q[i];
  }

  lemma CutWasThere(q: seq<Order>, p: nat, i: nat)
    requires DistinctOids(q) && AllPositive(q) && p < |q| && i < |q| - 1
    ensures var o := (q[..p] + q[p + 1..])[i]; o.sz > 0 && o.oid != q[p].oid && Kept(q, o)
  {
    var o := (q[..p] + q[p + 1..])[i];
    var j := if i < p then i else i + 1;
    assert o == q[j];
    assert o == q[j].(sz := o.sz);
  }

  lemma RemoveReduces(l: Level, oid: Oid)
    requires DistinctOids(l.queue) && AllPositive(l.queue) && Queued(l.queue, oid)
    ensures Reduced(l.queue, Remove(l, oid).queue, {oid})
  {
    var q, p, q' := l.queue, Find(l.queue, oid), Remove(l, oid).queue;
    CutIsDistinct(q, p);
    forall i | 0 <= i < |q'| ensures q'[i].sz > 0 && q'[i].oid !in {oid} && Kept(q, q'[i]) {
      CutWasThere(q, p, i);
    }
    forall i | 0 <= i < |q| ensures q[i].oid in {oid} || Queued(q', q[i].oid) {
      if i != p {
        CutKeeps(q, p, i);
      }
    }
  }

  lemma ModifyReduces(l: Level, oid: Oid, sz: Sz)
    requires DistinctOids(l.queue) && AllPositive(l.queue) && Queued(l.queue, oid) && sz > 0
    ensures Reduced(l.queue, ModifySz(l, oid, sz).queue, {})
  {
    var q, q' := l.queue, ModifySz(l, oid, sz).queue;
    forall i | 0 <= i < |q| ensures q'[i].sz > 0 && Kept(q, q'[i]) && Queued(q', q[i].oid) {
      assert q'[i] == q[i].(sz := q'[i].sz);
    }
  }

  lemma LevelFacts(b: Book, side: Side, px: Px)
    requires BookInv(b) && px in LevelsOf(b, side)
    ensures var q := LevelsOf(b, side)[px].queue; q != [] && DistinctOids(q) && AllPositive(q)
  {
    assert LevelAt(b, side, px);
    forall i | 0 <= i < |LevelsOf(b, side)[px].queue| ensures LevelsOf(b, side)[px].queue[i].sz > 0 {
      assert OrderAt(b, side, px, i);
    }
  }

  lemma CancelKeepsInv(b: Book, oid: Oid)
    requires BookInv(b)
    ensures BookInv(Cancel(b, oid).0) && (Cancel(b, oid).1 <==> oid in b.index)
  {
    assert IndexAt(b, oid);
    if oid in b.index {
      var Loc(side, px) := b.index[oid];
      LevelFacts(b, side, px);
      RemoveReduces(LevelsOf(b, side)[px], oid);
      PutKeepsInv(b, side, px, Remove(LevelsOf(b, side)[px], oid), {oid});
    }
  }

  lemma ModifyKeepsInv(b: Book, oid: Oid, sz: Sz)
    requires BookInv(b)
    ensures BookInv(Modify(b, oid, sz).0) && (Modify(b, oid, sz).1 <==> oid in b.index)
  {
    assert IndexAt(b, oid);
    if sz == 0 {
      CancelKeepsInv(b, oid);
    } else if oid in b.index {
      var Loc(side, px) := b.index[oid];
      var l' := ModifySz(LevelsOf(b, side)[px], oid, sz);
      LevelFacts(b, side, px);
      ModifyReduces(LevelsOf(b, side)[px], oid, sz);
      PutKeepsInv(b, side, px, l', {});
      assert b.index - {} == b.index;
      assert PutLevel(b, side, px, l', {}) == Modify(b, oid, sz).0;
    }
  }

  // ----- matching -----

  lemma MatchReduces(l: Level, sz: Sz)
    requires DistinctOids(l.queue) && AllPositive(l.queue)
    ensures Reduced(l.queue, MatchLevel(l, sz).0.queue, Elems(MatchLevel(l, sz).1.filled))
  {
    var q, r := l.queue, FillQueue(l.queue, sz);
    var k := FillIsPriceTime(q, sz);
    forall i | 0 <= i < |r.queue| ensures r.queue[i].sz > 0 && r.queue[i].oid !in r.filled && Kept(q, r.queue[i]) {
      assert r.queue[i] == q[k + i].(sz := r.queue[i].sz);
    }
    forall i | 0 <= i < |q| ensures q[i].oid in r.filled || Queued(r.queue, q[i].oid) {
      if i < k {
        assert r.filled[i] == q[i].oid;
      } else {
        assert r.queue[i - k].oid == q[i].oid;
      }
    }
    forall oid | oid in r.filled ensures Queued(q, oid) {
      var i :| 0 <= i < |r.filled| && r.filled[i] == oid;
      assert q[i].oid == oid;
    }
  }

  /** Matching keeps the book well formed and leaves no crossing maker while the taker has size left. */
  lemma {:induction false} MatchKeepsInv(b: Book, takerSide: Side, keys: seq<Px>, limit: Px, sz: Sz)
    requires BookInv(b)
    requires forall k :: k in keys ==> k in LevelsOf(b, Opposite(takerSide))
    requires Sorted(Opposite(takerSide), keys)
    ensures var r := MatchBook(b, takerSide, keys, limit, sz);
            && BookInv(r.book)
            && r.rest <= sz
            && LevelsOf(r.book, takerSide) == LevelsOf(b, takerSide)
            && LevelsOf(r.book, Opposite(takerSide)).Keys <= LevelsOf(b, Opposite(takerSide)).Keys
            && r.book.index.Keys <= b.index.Keys
            && (r.rest > 0 ==> forall k :: k in keys && Crosses(takerSide, limit, k) ==> k !in LevelsOf(r.book, Opposite(takerSide)))
    decreases |keys|
  {
    var ms := Opposite(takerSide);
    var makers := LevelsOf(b, ms);
    if keys == [] {
    } else if !Crosses(takerSide, limit, keys[0]) {
      forall k | k in keys ensures !Crosses(takerSide, limit, k) {
        assert k == keys[0] || Better(ms, keys[0], k);
      }
    } else {
      assert keys[0] in keys;
      var (l, f) := MatchLevel(makers[keys[0]], sz);
      var b' := PutLevel(b, ms, keys[0], l, Elems(f.filled));
      LevelFacts(b, ms, keys[0]);
      MatchReduces(makers[keys[0]], sz);
      PutKeepsInv(b, ms, keys[0], l, Elems(f.filled));
      FillConserves(makers[keys[0]].queue, sz);
      if f.rest > 0 {
        assert forall k :: k in keys <==> k == keys[0] || k in keys[1..];
        MatchKeepsInv(b', takerSide, keys[1..], limit, f.rest);
      }
    }
  }

  // ----- resting -----

  /** The queue gains exactly one order. */
  ghost predicate Grown(q: seq<Order>, o: Order, q': seq<Order>) {
    && DistinctOids(q')
    && (forall i :: 0 <= i < |q'| ==> q'[i] == o || q'[i] in q)
    && (forall i :: 0 <= i < |q| ==> q[i] in q')
    && o in q'
  }

  lemma SpliceGrows(q: seq<Order>, p: nat, o: Order)
    requires DistinctOids(q) && p <= |q| && forall i :: 0 <= i < |q| ==> q[i].oid != o.oid
    ensures Grown(q, o, q[..p] + [o] + q[p..])
  {
    var q' := q[..p] + [o] + q[p..];
    assert q'[p] == o;
    forall i | 0 <= i < |q'| && i != p ensures q'[i] == q[if i < p then i else i - 1] {
    }
    forall i | 0 <= i < |q| ensures q[i] in q' {
      assert q'[if i < p then i else i + 1] == q[i];
    }
  }

  lemma RestGrows(l: Level, o: Order, anchor: Option<Oid>)
    requires DistinctOids(l.queue) && !Queued(l.queue, o.oid)
    ensures Grown(l.queue, o, RestAt(l, o, anchor).queue)
  {
    if anchor.Some? && Queued(l.queue, anchor.value) {
      SpliceGrows(l.queue, Find(l.queue, anchor.value), o);
    } else {
      SpliceGrows(l.queue, |l.queue|, o);
      assert l.queue[..|l.queue|] + [o] + l.queue[|l.queue|..] == l.queue + [o];
    }
  }

  /** An oid outside the index is queued nowhere. */
  lemma UnindexedIsUnqueued(b: Book, side: Side, px: Px, oid: Oid)
    requires BookInv(b) && oid !in b.index && px in LevelsOf(b, side)
    ensures !Queued(LevelsOf(b, side)[px].queue, oid)
  {
    assert OrderAt(b, side, px, Find(LevelsOf(b, side)[px].queue, oid));
  }

  lemma RestedLevelKeepsOrders(b: Book, o: Order, b': Book, i: nat)
    requires BookInv(b) && o.oid !in b.index && o.sz > 0
    requires b'.index == b.index[o.oid := Loc(o.side, o.px)] && o.px in LevelsOf(b', o.side)
    requires Grown(LevelOr(LevelsOf(b, o.side), o.px).queue, o, LevelsOf(b', o.side)[o.px].queue)
    ensures OrderAt(b', o.side, o.px, i)
  {
    var q, q' := LevelOr(LevelsOf(b, o.side), o.px).queue, LevelsOf(b', o.side)[o.px].queue;
    if i < |q'| && q'[i] != o {
      var j :| 0 <= j < |q| && q[j] == q'[i];
      assert OrderAt(b, o.side, o.px, j);
    }
  }

  lemma RestKeepsOrders(b: Book, o: Order, anchor: Option<Oid>, s: Side, p: Px, i: nat)
    requires BookInv(b) && o.oid !in b.index && o.sz > 0
    requires Grown(LevelOr(LevelsOf(b, o.side), o.px).queue, o, LevelsOf(Rest(b, o, anchor), o.side)[o.px].queue)
    ensures OrderAt(Rest(b, o, anchor), s, p, i)
  {
    if s == o.side && p == o.px {
      RestedLevelKeepsOrders(b, o, Rest(b, o, anchor), i);
    } else {
      assert OrderAt(b, s, p, i);
    }
  }

  lemma RestKeepsIndex(b: Book, o: Order, anchor: Option<Oid>, oid: Oid)
    requires BookInv(b) && o.oid !in b.index
    requires Grown(LevelOr(LevelsOf(b, o.side), o.px).queue, o, LevelsOf(Rest(b, o, anchor), o.side)[o.px].queue)
    ensures IndexAt(Rest(b, o, anchor), oid)
  {
    var b' := Rest(b, o, anchor);
    var q' := LevelsOf(b', o.side)[o.px].queue;
    if oid == o.oid {
      QueuedIff(q', oid);
    } else if oid in b.index {
      assert IndexAt(b, oid);
      if b.index[oid] == Loc(o.side, o.px) {
        var q := LevelsOf(b, o.side)[o.px].queue;
        assert q[Find(q, oid)] in q';
        QueuedIff(q', oid);
      }
    }
  }

  /** Resting an order that crosses nothing keeps the book well formed. */
  lemma RestKeepsInv(b: Book, o: Order, anchor: Option<Oid>)
    requires BookInv(b) && o.oid !in b.index && o.sz > 0
    requires forall k :: k in LevelsOf(b, Opposite(o.side)) ==> !Crosses(o.side, o.px, k)
    ensures BookInv(Rest(b, o, anchor))
  {
    var b' := Rest(b, o, anchor);
    if o.px in LevelsOf(b, o.side) {
      UnindexedIsUnqueued(b, o.side, o.px, o.oid);
    }
    assert LevelAt(b, o.side, o.px);
    RestGrows(LevelOr(LevelsOf(b, o.side), o.px), o, anchor);
    forall s, p, i: nat ensures OrderAt(b', s, p, i) {
      RestKeepsOrders(b, o, anchor, s, p, i);
    }
    forall oid ensures IndexAt(b', oid) {
      RestKeepsIndex(b, o, anchor, oid);
    }
    forall p, q | p in b'.bids && q in b'.asks ensures p < q {
      if o.side == Ask && q == o.px {
        assert !Crosses(o.side, o.px, p);
      } else if o.side == Bid && p == o.px {
        assert !Crosses(o.side, o.px, q);
      }
    }
    forall s, p ensures LevelAt(b', s, p) {
      assert LevelAt(b, s, p);
    }
  }

  /** Matching an incoming order, then resting what is left, keeps the book well formed. */
  lemma AddKeepsInv(b: Book, o: Order, anchor: Option<Oid>)
    requires BookInv(b)
    ensures BookInv(Add(b, o, anchor).0)
  {
    if o.oid !in b.index {
      var ms := Opposite(o.side);
      MatchKeepsInv(b, o.side, BestFirst(ms, LevelsOf(b, ms).Keys), o.px, o.sz);
      var m := MatchIncoming(b, o);
      if m.rest > 0 {
        RestKeepsInv(m.book, o.(sz := m.rest), anchor);
      }
    }
  }

  // ----- the aggregates -----

  lemma PutKeepsExact(b: Book, side: Side, px: Px, l: Level, gone: set<Oid>)
    requires AllExact(b) && Exact(l)
    ensures AllExact(PutLevel(b, side, px, l, gone))
  {
    forall s, p ensures ExactAt(PutLevel(b, side, px, l, gone), s, p) {
      assert ExactAt(b, s, p);
    }
  }

  lemma {:induction false} MatchKeepsAllExact(b: Book, takerSide: Side, keys: seq<Px>, limit: Px, sz: Sz)
    requires AllExact(b)
    ensures AllExact(MatchBook(b, takerSide, keys, limit, sz).book)
    decreases |keys|
  {
    var makers := LevelsOf(b, Opposite(takerSide));
    if keys != [] && Crosses(takerSide, limit, keys[0]) && keys[0] in makers {
      var (l, f) := MatchLevel(makers[keys[0]], sz);
      assert ExactAt(b, Opposite(takerSide), keys[0]);
      MatchKeepsExact(makers[keys[0]], sz);
      PutKeepsExact(b, Opposite(takerSide), keys[0], l, Elems(f.filled));
      if f.rest > 0 {
        MatchKeepsAllExact(PutLevel(b, Opposite(takerSide), keys[0], l, Elems(f.filled)), takerSide, keys[1..], limit, f.rest);
      }
    }
  }

  lemma RestKeepsAllExact(b: Book, o: Order, anchor: Option<Oid>)
    requires BookInv(b) && AllExact(b) && o.oid !in b.index && AllFit(Rest(b, o, anchor))
    ensures AllExact(Rest(b, o, anchor))
  {
    var l := LevelOr(LevelsOf(b, o.side), o.px);
    if o.px in LevelsOf(b, o.side) {
      UnindexedIsUnqueued(b, o.side, o.px, o.oid);
    }
    assert ExactAt(b, o.side, o.px) && FitsAt(Rest(b, o, anchor), o.side, o.px);
    if anchor.Some? && Queued(l.queue, anchor.value) {
      InsertKeepsExact(l, anchor.value, o);
    } else {
      PushKeepsExact(l, o);
    }
    forall s, p ensures ExactAt(Rest(b, o, anchor), s, p) {
      assert ExactAt(b, s, p);
    }
  }

  /** Every call keeps the aggregates exact as long as the sums it produces fit 64 bits. */
  lemma StepKeepsAllExact(b: Book, op: Op)
    requires BookInv(b) && AllExact(b) && AllFit(Step(b, op))
    ensures AllExact(Step(b, op))
  {
    match op
    case AddOp(o, anchor) =>
      if o.oid !in b.index {
        var ms := Opposite(o.side);
        MatchKeepsInv(b, o.side, BestFirst(ms, LevelsOf(b, ms).Keys), o.px, o.sz);
        MatchKeepsAllExact(b, o.side, BestFirst(ms, LevelsOf(b, ms).Keys), o.px, o.sz);
        var m := MatchIncoming(b, o);
        if m.rest > 0 {
          RestKeepsAllExact(m.book, o.(sz := m.rest), anchor);
        }
      }
    case CancelOp(oid) => CancelKeepsExact(b, oid);
    case ModifyOp(oid, sz) =>
      if sz == 0 {
        CancelKeepsExact(b, oid);
      } else if oid in b.index {
        assert IndexAt(b, oid);
        var Loc(side, px) := b.index[oid];
        assert ExactAt(b, side, px) && FitsAt(Modify(b, oid, sz).0, side, px);
        ModifyKeepsExact(LevelsOf(b, side)[px], oid, sz);
        forall s, p ensures ExactAt(Modify(b, oid, sz).0, s, p) {
          assert ExactAt(b, s, p);
        }
      }
    case CompactOp =>
  }

  lemma CancelKeepsExact(b: Book, oid: Oid)
    requires BookInv(b) && AllExact(b)
    ensures AllExact(Cancel(b, oid).0)
  {
    if oid in b.index {
      var Loc(side, px) := b.index[oid];
      assert IndexAt(b, oid) && ExactAt(b, side, px);
      RemoveKeepsExact(LevelsOf(b, side)[px], oid);
      PutKeepsExact(b, side, px, Remove(LevelsOf(b, side)[px], oid), {oid});
    }
  }

  // ----- all runs -----

  datatype Op = AddOp(order: Order, anchor: Option<Oid>) | CancelOp(oid: Oid) | ModifyOp(oid: Oid, sz: Sz) | CompactOp

  /** One call on a book; compaction changes only the slabs beneath the levels. */
  function Step(b: Book, op: Op): Book {
    match op
    case AddOp(order, anchor) => Add(b, order, anchor).0
    case CancelOp(oid) => Cancel(b, oid).0
    case ModifyOp(oid, sz) => Modify(b, oid, sz).0
    case CompactOp => b
  }

  function Run(ops: seq<Op>): Book {
    if ops == [] then EMPTY_BOOK else Step(Run(ops[..|ops| - 1]), ops[|ops| - 1])
  }

  /** The representation invariant holds after every sequence of calls. */
  lemma {:induction false} RunKeepsInv(ops: seq<Op>)
    ensures BookInv(Run(ops))
  {
    if ops != [] {
      var before, op := ops[..|ops| - 1], ops[|ops| - 1];
      RunKeepsInv(before);
      match op
      case AddOp(order, anchor) => AddKeepsInv(Run(before), order, anchor);
      case CancelOp(oid) => CancelKeepsInv(Run(before), oid);
      case ModifyOp(oid, sz) => ModifyKeepsInv(Run(before), oid, sz);
      case CompactOp =>
    }
  }

  /** While no level's sum outgrows 64 bits, every aggregate of every reachable book is its queue's sum. */
  lemma {:induction false} RunKeepsAllExact(ops: seq<Op>)
    requires forall i {:trigger ops[..i]} :: 0 <= i <= |ops| ==> AllFit(Run(ops[..i]))
    ensures AllExact(Run(ops))
  {
    if ops != [] {
      var before := ops[..|ops| - 1];
      assert forall i {:trigger before[..i]} :: 0 <= i <= |before| ==> before[..i] == ops[..i];
      RunKeepsAllExact(before);
      RunKeepsInv(before);
      assert ops[..|ops|] == ops;
      StepKeepsAllExact(Run(before), ops[|ops| - 1]);
    }
  }

  // ----- best bid and offer -----

  const U32_MAX: nat := 0xFFFF_FFFF

  datatype Quote = Quote(px: Px, sz: Sz, count: nat)

  function BestQuote(side: Side, levels: map<Px, Level>): Option<Quote> {
    if levels == map[] then None
    else
      var px := Best(side, levels.Keys);
      Some(Quote(px, levels[px].total, Min(|levels[px].queue|, U32_MAX)))
  }

  function GetBbo(b: Book): (Option<Quote>, Option<Quote>) {
    (BestQuote(Bid, b.bids), BestQuote(Ask, b.asks))
  }

  /** The quote is what a scan over all resting orders would give: best price, and size and count at it. */
  lemma BboIsTheTouch(b: Book)
    requires BookInv(b) && AllExact(b)
    ensures var (bid, ask) := GetBbo(b);
            && (bid.None? <==> forall oid :: oid in b.index ==> b.index[oid].side == Ask)
            && (ask.None? <==> forall oid :: oid in b.index ==> b.index[oid].side == Bid)
            && (bid.Some? && ask.Some? ==> bid.value.px < ask.value.px)
            && (bid.Some? ==> TouchIs(b, Bid, bid.value))
            && (ask.Some? ==> TouchIs(b, Ask, ask.value))
  {
    SideIsQuoted(b, Bid);
    SideIsQuoted(b, Ask);
  }

  ghost predicate TouchIs(b: Book, side: Side, quote: Quote) {
    && (forall oid :: oid in b.index && b.index[oid].side == side ==> !Better(side, b.index[oid].px, quote.px))
    && quote.px in LevelsOf(b, side)
    && quote.sz == SumSz(LevelsOf(b, side)[quote.px].queue)
    && 0 < quote.count == Min(|LevelsOf(b, side)[quote.px].queue|, 0xFFFF_FFFF)
  }

  lemma SideIsQuoted(b: Book, side: Side)
    requires BookInv(b) && AllExact(b)
    ensures BestQuote(side, LevelsOf(b, side)).None? <==> forall oid :: oid in b.index ==> b.index[oid].side == Opposite(side)
    ensures BestQuote(side, LevelsOf(b, side)).Some? ==> TouchIs(b, side, BestQuote(side, LevelsOf(b, side)).value)
  {
    var levels := LevelsOf(b, side);
    forall oid | oid in b.index && b.index[oid].side == side ensures b.index[oid].px in levels {
      assert IndexAt(b, oid);
    }
    if levels != map[] {
      var px := Best(side, levels.Keys);
      assert LevelAt(b, side, px) && OrderAt(b, side, px, 0) && ExactAt(b, side, px);
    }
  }

  // ----- price-time priority across levels -----

  /** The makers queued at these prices, in this order of prices. */
  function Flatten(levels: map<Px, Level>, keys: seq<Px>): seq<Order> {
    if keys == [] then []
    else (if keys[0] in levels then levels[keys[0]].queue else []) + Flatten(levels, keys[1..])
  }

  /** The prices an incoming order trades with: crossing prices head the best-first list. */
  function Crossing(takerSide: Side, limit: Px, keys: seq<Px>): seq<Px> {
    if keys == [] || !Crosses(takerSide, limit, keys[0]) then []
    else [keys[0]] + Crossing(takerSide, limit, keys[1..])
  }

  lemma {:induction false} CrossingIsAPrefix(takerSide: Side, limit: Px, keys: seq<Px>)
    requires Sorted(Opposite(takerSide), keys)
    ensures var c := Crossing(takerSide, limit, keys);
            && c <= keys
            && (forall k :: k in c <==> k in keys && Crosses(takerSide, limit, k))
  {
    if keys != [] {
      if Crosses(takerSide, limit, keys[0]) {
        CrossingIsAPrefix(takerSide, limit, keys[1..]);
        assert forall k :: k in keys <==> k == keys[0] || k in keys[1..];
      } else {
        forall k | k in keys ensures !Crosses(takerSide, limit, k) {
          assert k == keys[0] || Better(Opposite(takerSide), keys[0], k);
        }
      }
    }
  }

  /** Filling a concatenation fills its first part, then its second with what is left. */
  lemma {:induction false} FillConcat(a: seq<Order>, b: seq<Order>, sz: Sz)
    requires AllPositive(a) && AllPositive(b) && a != []
    ensures var ra := FillQueue(a, sz);
            FillQueue(a + b, sz) ==
            if ra.rest == 0 then Fill(ra.queue + b, 0, ra.filled)
            else var rb := FillQueue(b, ra.rest); Fill(rb.queue, rb.rest, ra.filled + rb.filled)
  {
    var traded := Min(sz, a[0].sz);
    assert (a + b)[1..] == a[1..] + b;
    if a[0].sz > traded {
    } else if sz > traded {
      if a[1..] == [] {
        assert a[1..] + b == b;
        assert FillQueue(a, sz) == Fill([], sz - traded, [a[0].oid]);
      } else {
        FillConcat(a[1..], b, sz - traded);
        var ra := FillQueue(a[1..], sz - traded);
        if ra.rest > 0 {
          var rb := FillQueue(b, ra.rest);
          assert [a[0].oid] + (ra.filled + rb.filled) == ([a[0].oid] + ra.filled) + rb.filled;
        }
      }
    }
  }

  lemma {:induction false} FlattenElsewhere(levels: map<Px, Level>, levels': map<Px, Level>, keys: seq<Px>)
    requires forall k :: k in keys ==> (k in levels <==> k in levels') && (k in levels ==> levels[k] == levels'[k])
    ensures Flatten(levels, keys) == Flatten(levels', keys)
  {
    if keys != [] {
      assert keys[0] in keys;
      FlattenElsewhere(levels, levels', keys[1..]);
    }
  }

  lemma {:induction false} FlattenIsPositive(b: Book, side: Side, keys: seq<Px>)
    requires BookInv(b)
    ensures AllPositive(Flatten(LevelsOf(b, side), keys))
  {
    if keys != [] {
      FlattenIsPositive(b, side, keys[1..]);
      if keys[0] in LevelsOf(b, side) {
        LevelFacts(b, side, keys[0]);
      }
    }
  }

  /** A level that matching has passed, and any level it does not name, stays as it is. */
  lemma {:induction false} MatchTouchesOnly(b: Book, takerSide: Side, keys: seq<Px>, limit: Px, sz: Sz, px: Px)
    requires px !in Crossing(takerSide, limit, keys)
    ensures var ms, r := Opposite(takerSide), MatchBook(b, takerSide, keys, limit, sz);
            && (px in LevelsOf(r.book, ms) <==> px in LevelsOf(b, ms))
            && (px in LevelsOf(b, ms) ==> LevelsOf(r.book, ms)[px] == LevelsOf(b, ms)[px])
    decreases |keys|
  {
    var ms := Opposite(takerSide);
    var makers := LevelsOf(b, ms);
    if keys != [] && Crosses(takerSide, limit, keys[0]) && keys[0] in makers {
      var (l, f) := MatchLevel(makers[keys[0]], sz);
      if f.rest > 0 {
        MatchTouchesOnly(PutLevel(b, ms, keys[0], l, Elems(f.filled)), takerSide, keys[1..], limit, f.rest, px);
      }
    }
  }

  /** The best level is filled first, out of the long queue, and the rest of that queue is untouched by it. */
  lemma BestLevelFillsFirst(b: Book, ms: Side, k0: Px, rest: seq<Px>, sz: Sz)
    requires BookInv(b) && k0 in LevelsOf(b, ms) && k0 !in rest
    ensures var (l, f) := MatchLevel(LevelsOf(b, ms)[k0], sz);
            var later := Flatten(LevelsOf(PutLevel(b, ms, k0, l, Elems(f.filled)), ms), rest);
            FillQueue(Flatten(LevelsOf(b, ms), [k0] + rest), sz) ==
            if f.rest == 0 then Fill(l.queue + later, 0, f.filled)
            else var r := FillQueue(later, f.rest); Fill(r.queue, r.rest, f.filled + r.filled)
  {
    var makers := LevelsOf(b, ms);
    var (l, f) := MatchLevel(makers[k0], sz);
    LevelFacts(b, ms, k0);
    FlattenIsPositive(b, ms, rest);
    FlattenElsewhere(makers, LevelsOf(PutLevel(b, ms, k0, l, Elems(f.filled)), ms), rest);
    assert ([k0] + rest)[1..] == rest;
    FillConcat(makers[k0].queue, Flatten(makers, rest), sz);
  }

  /** Filling one level keeps the book, and leaves the level empty when the taker is left with something. */
  lemma MatchLevelKeepsInv(b: Book, ms: Side, k0: Px, sz: Sz)
    requires BookInv(b) && k0 in LevelsOf(b, ms)
    ensures var (l, f) := MatchLevel(LevelsOf(b, ms)[k0], sz);
            BookInv(PutLevel(b, ms, k0, l, Elems(f.filled))) && (f.rest > 0 ==> l.queue == [])
  {
    var (l, f) := MatchLevel(LevelsOf(b, ms)[k0], sz);
    LevelFacts(b, ms, k0);
    MatchReduces(LevelsOf(b, ms)[k0], sz);
    PutKeepsInv(b, ms, k0, l, Elems(f.filled));
    FillConserves(LevelsOf(b, ms)[k0].queue, sz);
  }

  /** Matching level by level is filling the crossing makers in one long queue. */
  lemma {:induction false} MatchIsOneQueue(b: Book, takerSide: Side, keys: seq<Px>, limit: Px, sz: Sz)
    requires BookInv(b)
    requires forall k :: k in keys ==> k in LevelsOf(b, Opposite(takerSide))
    requires Sorted(Opposite(takerSide), keys)
    ensures var ms, c, r := Opposite(takerSide), Crossing(takerSide, limit, keys), MatchBook(b, takerSide, keys, limit, sz);
            FillQueue(Flatten(LevelsOf(b, ms), c), sz) == Fill(Flatten(LevelsOf(r.book, ms), c), r.rest, r.filled)
    decreases |keys|
  {
    var ms := Opposite(takerSide);
    if keys != [] && Crosses(takerSide, limit, keys[0]) {
      assert keys[0] in keys;
      var k0, rest := keys[0], Crossing(takerSide, limit, keys[1..]);
      var (l, f) := MatchLevel(LevelsOf(b, ms)[k0], sz);
      var b' := PutLevel(b, ms, k0, l, Elems(f.filled));
      CrossingIsAPrefix(takerSide, limit, keys[1..]);
      assert k0 !in rest;
      BestLevelFillsFirst(b, ms, k0, rest, sz);
      assert ([k0] + rest)[1..] == rest;
      if f.rest > 0 {
        MatchLevelKeepsInv(b, ms, k0, sz);
        MatchIsOneQueue(b', takerSide, keys[1..], limit, f.rest);
        MatchTouchesOnly(b', takerSide, keys[1..], limit, f.rest, k0);
      }
    }
  }

  /**
   Matching in full: the crossing makers, best price first and oldest first within a price, are
   filled from the front; the taker loses what they lose; nothing else in the book changes.
   */
  lemma MatchIsPriceTime(b: Book, o: Order) returns (k: nat)
    requires BookInv(b)
    ensures var ms, m := Opposite(o.side), MatchIncoming(b, o);
            var c := Crossing(o.side, o.px, BestFirst(ms, LevelsOf(b, ms).Keys));
            var before, after := Flatten(LevelsOf(b, ms), c), Flatten(LevelsOf(m.book, ms), c);
            && FillsFirst(before, o.sz, Fill(after, m.rest, m.filled), k)
            && SumSz(before) - SumSz(after) == o.sz - m.rest
            && (forall p :: p in c <==> p in LevelsOf(b, ms) && Crosses(o.side, o.px, p))
            && (forall p :: !Crosses(o.side, o.px, p) ==> (p in LevelsOf(m.book, ms) <==> p in LevelsOf(b, ms)))
            && (forall p :: !Crosses(o.side, o.px, p) && p in LevelsOf(b, ms) ==> LevelsOf(m.book, ms)[p] == LevelsOf(b, ms)[p])
            && LevelsOf(m.book, o.side) == LevelsOf(b, o.side)
            && m.book.index == b.index - Elems(m.filled)
  {
    var ms, m := Opposite(o.side), MatchIncoming(b, o);
    var keys := BestFirst(ms, LevelsOf(b, ms).Keys);
    var c := Crossing(o.side, o.px, keys);
    var before := Flatten(LevelsOf(b, ms), c);
    CrossingIsAPrefix(o.side, o.px, keys);
    MatchKeepsInv(b, o.side, keys, o.px, o.sz);
    MatchIsOneQueue(b, o.side, keys, o.px, o.sz);
    FlattenIsPositive(b, ms, c);
    FillConserves(before, o.sz);
    k := FillIsPriceTime(before, o.sz);
    forall p | !Crosses(o.side, o.px, p)
      ensures p in LevelsOf(m.book, ms) <==> p in LevelsOf(b, ms)
      ensures p in LevelsOf(b, ms) ==> LevelsOf(m.book, ms)[p] == LevelsOf(b, ms)[p]
    {
      MatchTouchesOnly(b, o.side, keys, o.px, o.sz, p);
    }
    MatchIndex(b, o.side, keys, o.px, o.sz);
  }

  lemma {:induction false} MatchIndex(b: Book, takerSide: Side, keys: seq<Px>, limit: Px, sz: Sz)
    ensures var r := MatchBook(b, takerSide, keys, limit, sz); r.book.index == b.index - Elems(r.filled)
    decreases |keys|
  {
    var makers := LevelsOf(b, Opposite(takerSide));
    if keys != [] && Crosses(takerSide, limit, keys[0]) && keys[0] in makers {
      var (l, f) := MatchLevel(makers[keys[0]], sz);
      var b' := PutLevel(b, Opposite(takerSide), keys[0], l, Elems(f.filled));
      if f.rest > 0 {
        MatchIndex(b', takerSide, keys[1..], limit, f.rest);
        var r := MatchBook(b', takerSide, keys[1..], limit, f.rest);
        assert Elems(f.filled + r.filled) == Elems(f.filled) + Elems(r.filled);
      }
    }
  }
}
