/**
 The order book object: the oid index and, per side, a map from price to level object, each
 over its own linked list. All of it is updated in place; the footprints of the levels are
 disjoint, and together they stand for a book as BookCore knows it.
 */
module Engine {
  import opened Types
  import opened Levels
  import opened BookCore

  function Prices(ks: seq<Px>): set<Px> {
    set k | k in ks
  }

  /** Removing the emptied prices after the walk is removing each as it empties. */
  lemma DeferredRemoval(levels: map<Px, Level>, ks: seq<Px>, px: Px, l: Level)
    requires px in levels && px !in ks
    ensures levels[px := l] - Prices(if l.queue == [] then ks + [px] else ks) == PutIn(levels - Prices(ks), px, l)
  {
    if l.queue == [] {
      assert Prices(ks + [px]) == Prices(ks) + {px};
    }
  }

  lemma ElemsSnoc(oids: seq<Oid>, i: nat)
    requires i < |oids|
    ensures Elems(oids[..i + 1]) == Elems(oids[..i]) + {oids[i]}
  {
    assert oids[..i + 1] == oids[..i] + [oids[i]];
  }

  /** `b` after part of the walk: these makers are left, these orders are filled. */
  ghost function Walked(b: Book, takerSide: Side, left: map<Px, Level>, filled: seq<Oid>): Book {
    WithLevels(b.(index := b.index - Elems(filled)), Opposite(takerSide), left)
  }

  /** The outcome on `b` when part of the walk is behind it and these keys are still to do. */
  ghost function Resumed(b: Book, taker: Order, left: map<Px, Level>, filled: seq<Oid>, keys: seq<Px>, sz: Sz): BookMatch {
    var r := MatchBook(Walked(b, taker.side, left, filled), taker.side, keys, taker.px, sz);
    BookMatch(r.book, r.rest, filled + r.filled)
  }

  lemma ResumeStep(b: Book, taker: Order, left: map<Px, Level>, filled: seq<Oid>, keys: seq<Px>, sz: Sz)
    requires keys != [] && keys[0] in left && Crosses(taker.side, taker.px, keys[0])
    ensures var (l, f) := MatchLevel(left[keys[0]], sz);
            Resumed(b, taker, left, filled, keys, sz)
            == Resumed(b, taker, PutIn(left, keys[0], l), filled + f.filled, if f.rest == 0 then [] else keys[1..], f.rest)
  {
    var (l, f) := MatchLevel(left[keys[0]], sz);
    assert b.index - Elems(filled) - Elems(f.filled) == b.index - Elems(filled + f.filled);
    assert PutLevel(Walked(b, taker.side, left, filled), Opposite(taker.side), keys[0], l, Elems(f.filled))
        == Walked(b, taker.side, PutIn(left, keys[0], l), filled + f.filled);
    var r := MatchBook(Walked(b, taker.side, PutIn(left, keys[0], l), filled + f.filled), taker.side, keys[1..], taker.px, f.rest);
    assert filled + (f.filled + r.filled) == filled + f.filled + r.filled;
    assert filled + f.filled + [] == filled + f.filled;
  }

  // ----- a side on the heap -----

  type SideMap = map<Px, PriceLevel>

  /** The level objects of a side and their lists. */
  ghost function Objects(m: SideMap): set<object> {
    (set p | p in m :: m[p] as object) + (set p | p in m :: m[p].orders as object)
  }

  /** No level, and no list, stands at two prices. */
  ghost predicate Separate(m: SideMap) {
    forall p, q :: p in m && q in m && p != q ==> m[p] != m[q] && m[p].orders != m[q].orders
  }

  /** What a level object stands for, if it is well formed. */
  ghost function Stands(level: PriceLevel): Option<Level>
    reads level, level.orders
  {
    if level.Valid() then Some(level.View()) else None
  }

  /** The side's objects stand for these levels. */
  ghost predicate Shows(m: SideMap, v: map<Px, Level>)
    reads Objects(m)
  {
    && Separate(m)
    && m.Keys == v.Keys
    && forall p :: p in m && p in v ==> Stands(m[p]) == Some(v[p])
  }

  /** These levels, when the side stands for them. */
  ghost function Shown(m: SideMap, v: map<Px, Level>): Option<map<Px, Level>>
    reads Objects(m)
  {
    if Shows(m, v) then Some(v) else None
  }

  /** The other levels of the side stand for these. */
  ghost predicate Elsewhere(m: SideMap, v: map<Px, Level>, px: Px)
    reads Objects(m)
  {
    forall p :: p in m && p in v && p != px ==> Stands(m[p]) == Some(v[p])
  }

  /** The level at this price shares nothing with any other. */
  ghost predicate Apart(m: SideMap, px: Px)
    requires px in m
  {
    forall p :: p in m && p != px ==> m[p] != m[px] && m[p].orders != m[px].orders
  }

  /** A level that is now empty leaves the side; any other stays. */
  ghost function Swept(m: SideMap, px: Px, l: Level): SideMap {
    if l.queue == [] then m - {px} else m
  }

  lemma SweptSeparate(m: SideMap, px: Px, l: Level)
    requires Separate(m)
    ensures Separate(Swept(m, px, l)) && Objects(Swept(m, px, l)) <= Objects(m)
  {
  }

  lemma SweptLevel(m: SideMap, v: map<Px, Level>, px: Px, l: Level, p: Px)
    requires px in m && Separate(m) && m.Keys == v.Keys && Elsewhere(m, v, px) && Stands(m[px]) == Some(l)
    requires p in Swept(m, px, l) && p in PutIn(v, px, l)
    ensures Stands(Swept(m, px, l)[p]) == Some(PutIn(v, px, l)[p])
  {
  }

  lemma SweptShows(m: SideMap, v: map<Px, Level>, px: Px, l: Level)
    requires px in m && Separate(m) && m.Keys == v.Keys && Elsewhere(m, v, px) && Stands(m[px]) == Some(l)
    ensures Shows(Swept(m, px, l), PutIn(v, px, l))
  {
    SweptSeparate(m, px, l);
    forall p | p in Swept(m, px, l) && p in PutIn(v, px, l)
      ensures Stands(Swept(m, px, l)[p]) == Some(PutIn(v, px, l)[p])
    {
      SweptLevel(m, v, px, l, p);
    }
  }

  lemma UpdatedShows(m: SideMap, v: map<Px, Level>, px: Px, l: Level)
    requires px in m && Separate(m) && m.Keys == v.Keys && Elsewhere(m, v, px) && Stands(m[px]) == Some(l)
    ensures Shows(m, v[px := l])
  {
    assert v[px := l].Keys == m.Keys;
  }

  // ----- level operations, said of what a level stands for -----

  method RemoveIn(level: PriceLevel, ghost l: Level, oid: Oid) returns (found: bool, empty: bool)
    requires Stands(level) == Some(l)
    modifies level, level.orders
    ensures Stands(level) == Some(Remove(l, oid))
    ensures found == Queued(l.queue, oid) && empty == (Remove(l, oid).queue == [])
  {
    found, empty := level.RemoveAndLook(oid);
  }

  method ResizeIn(level: PriceLevel, ghost l: Level, oid: Oid, sz: Sz) returns (found: bool)
    requires Stands(level) == Some(l)
    modifies level, level.orders
    ensures Stands(level) == Some(ModifySz(l, oid, sz))
    ensures found == Queued(l.queue, oid)
  {
    found := level.ModifyOrderSz(oid, sz);
  }

  /** In front of the anchor when it is there, else at the back. */
  method RestOn(level: PriceLevel, ghost l: Level, order: Order, insertBefore: Option<Oid>) returns (fellBack: bool)
    requires Stands(level) == Some(l)
    modifies level, level.orders
    ensures Stands(level) == Some(RestAt(l, order, insertBefore))
    ensures fellBack == FallsBack(l, insertBefore)
  {
    if insertBefore.Some? {
      var there := level.Has(insertBefore.value);
      if there {
        var _ := level.InsertOrderBefore(insertBefore.value, order);
        return false;
      }
    }
    var _ := level.PushBackOrder(order);
    fellBack := insertBefore.Some?;
  }

  method FillFrom(level: PriceLevel, ghost l: Level, taker: Order) returns (rest: Order, filled: seq<Oid>, empty: bool)
    requires Stands(level) == Some(l)
    modifies level, level.orders
    ensures var (l', f) := MatchLevel(l, taker.sz);
            && Stands(level) == Some(l') && rest == taker.(sz := f.rest) && filled == f.filled
            && empty == (l'.queue == [])
  {
    rest, filled := level.MatchAgainst(taker);
    empty := level.IsEmpty();
  }

  // ----- side operations -----

  /** Take an order out of its level, and the level out of the side once it is empty. */
  method RemoveFrom(m: SideMap, ghost v: map<Px, Level>, px: Px, oid: Oid) returns (kept: SideMap, found: bool)
    requires Shown(m, v).Some? && px in m
    modifies m[px], m[px].orders
    ensures Objects(kept) <= Objects(m) && Shown(kept, PutIn(v, px, Remove(v[px], oid))).Some?
    ensures found == Queued(v[px].queue, oid)
  {
    var empty;
    found, empty := RemoveAt(m, v, px, oid);
    SweptShows(m, v, px, Remove(v[px], oid));
    SweptSeparate(m, px, Remove(v[px], oid));
    kept := if empty then m - {px} else m;
  }

  method RemoveAt(m: SideMap, ghost v: map<Px, Level>, px: Px, oid: Oid) returns (found: bool, empty: bool)
    requires px in m && px in v && Apart(m, px) && Elsewhere(m, v, px) && Stands(m[px]) == Some(v[px])
    modifies m[px], m[px].orders
    ensures Elsewhere(m, v, px) && Stands(m[px]) == Some(Remove(v[px], oid))
    ensures found == Queued(v[px].queue, oid) && empty == (Remove(v[px], oid).queue == [])
  {
    found, empty := RemoveIn(m[px], v[px], oid);
  }

  method ResizeAt(m: SideMap, ghost v: map<Px, Level>, px: Px, oid: Oid, sz: Sz) returns (found: bool)
    requires px in m && px in v && Apart(m, px) && Elsewhere(m, v, px) && Stands(m[px]) == Some(v[px])
    modifies m[px], m[px].orders
    ensures Elsewhere(m, v, px) && Stands(m[px]) == Some(ModifySz(v[px], oid, sz))
    ensures found == Queued(v[px].queue, oid)
  {
    found := ResizeIn(m[px], v[px], oid, sz);
  }

  method Resize(m: SideMap, ghost v: map<Px, Level>, px: Px, oid: Oid, sz: Sz) returns (found: bool)
    requires Shown(m, v).Some? && px in m
    modifies m[px], m[px].orders
    ensures Shown(m, v[px := ModifySz(v[px], oid, sz)]).Some?
    ensures found == Queued(v[px].queue, oid)
  {
    found := ResizeAt(m, v, px, oid, sz);
    UpdatedShows(m, v, px, ModifySz(v[px], oid, sz));
  }

  method RestAtPrice(m: SideMap, ghost v: map<Px, Level>, order: Order, insertBefore: Option<Oid>) returns (fellBack: bool)
    requires order.px in m && order.px in v && Apart(m, order.px) && Elsewhere(m, v, order.px)
    requires Stands(m[order.px]) == Some(v[order.px])
    modifies m[order.px], m[order.px].orders
    ensures Elsewhere(m, v, order.px) && Stands(m[order.px]) == Some(RestAt(v[order.px], order, insertBefore))
    ensures fellBack == FallsBack(v[order.px], insertBefore)
  {
    fellBack := RestOn(m[order.px], v[order.px], order, insertBefore);
  }

  /** add_order_to_book: the order always rests; without its anchor it queues last. */
  method AddOrderToBook(m: SideMap, ghost v: map<Px, Level>, order: Order, insertBefore: Option<Oid>)
    returns (kept: SideMap, fellBack: bool)
    requires Shown(m, v).Some?
    modifies Objects(m)
    ensures Shown(kept, v[order.px := RestAt(LevelOr(v, order.px), order, insertBefore)]).Some?
    ensures fresh(Objects(kept) - Objects(m))
    ensures fellBack == FallsBack(LevelOr(v, order.px), insertBefore)
  {
    if order.px in m {
      fellBack := RestAtPrice(m, v, order, insertBefore);
      UpdatedShows(m, v, order.px, RestAt(v[order.px], order, insertBefore));
      kept := m;
    } else {
      kept, fellBack := RestOnNewLevel(m, v, order, insertBefore);
    }
  }

  lemma OpenedObjects(m: SideMap, px: Px, level: PriceLevel)
    requires px !in m
    ensures Objects(m[px := level]) == Objects(m) + {level, level.orders}
  {
    var kept := m[px := level];
    assert kept[px] == level;
    forall o | o in Objects(m)
      ensures o in Objects(kept)
    {
      if p :| p in m && m[p] == o {
        assert kept[p] == o;
      } else {
        var p :| p in m && m[p].orders == o;
        assert kept[p].orders == o;
      }
    }
  }

  lemma OpenedShows(m: SideMap, v: map<Px, Level>, px: Px, level: PriceLevel, l: Level)
    requires Shows(m, v) && px !in m && Stands(level) == Some(l)
    requires forall p :: p in m ==> m[p] != level && m[p].orders != level.orders
    ensures Shows(m[px := level], v[px := l])
  {
    var kept, v' := m[px := level], v[px := l];
    assert kept.Keys == v'.Keys;
    OpenedSeparate(m, px, level);
    forall p | p in kept && p in v'
      ensures Stands(kept[p]) == Some(v'[p])
    {
      assert p != px ==> p in m && p in v && kept[p] == m[p];
    }
  }

  lemma OpenedSeparate(m: SideMap, px: Px, level: PriceLevel)
    requires Separate(m) && px !in m && forall p :: p in m ==> m[p] != level && m[p].orders != level.orders
    ensures Separate(m[px := level])
  {
  }

  method RestOnNewLevel(m: SideMap, ghost v: map<Px, Level>, order: Order, insertBefore: Option<Oid>)
    returns (kept: SideMap, fellBack: bool)
    requires Shown(m, v).Some? && order.px !in m
    ensures Shown(kept, v[order.px := RestAt(EMPTY_LEVEL, order, insertBefore)]).Some?
    ensures fresh(Objects(kept) - Objects(m))
    ensures fellBack == FallsBack(EMPTY_LEVEL, insertBefore)
  {
    var level;
    level, fellBack := NewLevelBeside(m, v, order, insertBefore);
    kept := m[order.px := level];
    OpenedObjects(m, order.px, level);
    OpenedShows(m, v, order.px, level, RestAt(EMPTY_LEVEL, order, insertBefore));
  }

  /** A new level shares nothing with a side that exists. */
  method NewLevelBeside(m: SideMap, ghost v: map<Px, Level>, order: Order, insertBefore: Option<Oid>)
    returns (level: PriceLevel, fellBack: bool)
    requires Shown(m, v).Some?
    ensures Shown(m, v).Some? && fresh(level) && fresh(level.orders)
    ensures forall p :: p in m ==> m[p] != level && m[p].orders != level.orders
    ensures Stands(level) == Some(RestAt(EMPTY_LEVEL, order, insertBefore))
    ensures fellBack == FallsBack(EMPTY_LEVEL, insertBefore)
  {
    level, fellBack := NewLevelWith(order, insertBefore);
  }

  method NewLevelWith(order: Order, insertBefore: Option<Oid>) returns (level: PriceLevel, fellBack: bool)
    ensures fresh(level) && fresh(level.orders)
    ensures Stands(level) == Some(RestAt(EMPTY_LEVEL, order, insertBefore))
    ensures fellBack == FallsBack(EMPTY_LEVEL, insertBefore)
  {
    level := new PriceLevel();
    fellBack := RestOn(level, EMPTY_LEVEL, order, insertBefore);
  }

  // ----- matching -----

  method FillAt(m: SideMap, ghost v: map<Px, Level>, px: Px, taker: Order) returns (rest: Order, filled: seq<Oid>, empty: bool)
    requires px in m && px in v && Apart(m, px) && Elsewhere(m, v, px) && Stands(m[px]) == Some(v[px])
    modifies m[px], m[px].orders
    ensures var (l, f) := MatchLevel(v[px], taker.sz);
            && Elsewhere(m, v, px) && Stands(m[px]) == Some(l)
            && rest == taker.(sz := f.rest) && filled == f.filled && empty == (l.queue == [])
  {
    rest, filled, empty := FillFrom(m[px], v[px], taker);
  }

  /** One level of the walk; an emptied price is noted, not yet removed. */
  method VisitLevel(m: SideMap, ghost v: map<Px, Level>, keysToRemove: seq<Px>, px: Px, rest: Order)
    returns (ghost v': map<Px, Level>, keysToRemove': seq<Px>, rest': Order, filled: seq<Oid>)
    requires Shows(m, v) && px in m && px !in keysToRemove
    modifies m[px], m[px].orders
    ensures Shows(m, v')
    ensures var (l, f) := MatchLevel(v[px], rest.sz);
            && v' - Prices(keysToRemove') == PutIn(v - Prices(keysToRemove), px, l)
            && rest' == rest.(sz := f.rest) && filled == f.filled
    ensures forall k :: k in keysToRemove' ==> k in keysToRemove || k == px
  {
    var empty;
    ghost var (l, f) := MatchLevel(v[px], rest.sz);
    rest', filled, empty := FillAt(m, v, px, rest);
    UpdatedShows(m, v, px, l);
    DeferredRemoval(v, keysToRemove, px, l);
    v' := v[px := l];
    keysToRemove' := if empty then keysToRemove + [px] else keysToRemove;
  }

  /** The prices noted on the walk leave the side, objects and all. */
  lemma DroppedShows(m: SideMap, v: map<Px, Level>, gone: set<Px>)
    requires Shows(m, v)
    ensures Shows(m - gone, v - gone) && Objects(m - gone) <= Objects(m)
  {
    assert (m - gone).Keys == (v - gone).Keys;
    forall p | p in m - gone && p in v - gone
      ensures Stands((m - gone)[p]) == Some((v - gone)[p])
    {
      assert p in m && p in v;
    }
  }

  /** Part of the walk is behind: of the levels shown, those not noted are left, and finishing from here gives the match. */
  ghost predicate OnTheWay(
    b: Book, taker: Order, v: map<Px, Level>, keysToRemove: seq<Px>, filled: seq<Oid>, todo: seq<Px>, rest: Order)
  {
    && rest == taker.(sz := rest.sz)
    && Sorted(Opposite(taker.side), todo)
    && (forall k :: k in todo ==> k in v - Prices(keysToRemove))
    && MatchIncoming(b, taker) == Resumed(b, taker, v - Prices(keysToRemove), filled, todo, rest.sz)
  }

  lemma WalkStarts(b: Book, taker: Order, v: map<Px, Level>)
    requires LevelsOf(b, Opposite(taker.side)) == v
    ensures OnTheWay(b, taker, v, [], [], BestFirst(Opposite(taker.side), v.Keys), taker)
  {
    assert Prices([]) == {} && v - {} == v;
    assert Walked(b, taker.side, v, []) == b;
    var r := MatchIncoming(b, taker);
    assert [] + r.filled == r.filled;
  }

  lemma WalkEnds(b: Book, taker: Order, v: map<Px, Level>, keysToRemove: seq<Px>, filled: seq<Oid>, todo: seq<Px>, rest: Order)
    requires OnTheWay(b, taker, v, keysToRemove, filled, todo, rest)
    requires todo == [] || !Crosses(taker.side, taker.px, todo[0])
    ensures MatchIncoming(b, taker) == BookMatch(Walked(b, taker.side, v - Prices(keysToRemove), filled), rest.sz, filled)
  {
    assert filled + [] == filled;
  }

  lemma WalkGoesOn(
    b: Book, taker: Order, v: map<Px, Level>, keysToRemove: seq<Px>, filled: seq<Oid>, todo: seq<Px>, rest: Order,
    v': map<Px, Level>, keysToRemove': seq<Px>)
    requires OnTheWay(b, taker, v, keysToRemove, filled, todo, rest)
    requires todo != [] && todo[0] in v && Crosses(taker.side, taker.px, todo[0])
    requires var (l, f) := MatchLevel(v[todo[0]], rest.sz); v' - Prices(keysToRemove') == PutIn(v - Prices(keysToRemove), todo[0], l)
    ensures var (l, f) := MatchLevel(v[todo[0]], rest.sz);
            OnTheWay(b, taker, v', keysToRemove', filled + f.filled, if f.rest == 0 then [] else todo[1..], rest.(sz := f.rest))
  {
    var left := v - Prices(keysToRemove);
    assert todo[0] in todo && left[todo[0]] == v[todo[0]];
    ResumeStep(b, taker, left, filled, todo, rest.sz);
    assert forall k :: k in todo[1..] ==> k in todo && k != todo[0];
  }

  /** One turn of the walk. */
  method WalkOn(
    m: SideMap, ghost v: map<Px, Level>, keysToRemove: seq<Px>, filled: seq<Oid>, todo: seq<Px>, rest: Order,
    ghost b: Book, ghost taker: Order)
    returns (ghost v': map<Px, Level>, keysToRemove': seq<Px>, filled': seq<Oid>, todo': seq<Px>, rest': Order)
    requires Shows(m, v) && OnTheWay(b, taker, v, keysToRemove, filled, todo, rest)
    requires todo != [] && Crosses(taker.side, taker.px, todo[0])
    modifies Objects(m)
    ensures Shows(m, v') && OnTheWay(b, taker, v', keysToRemove', filled', todo', rest') && |todo'| < |todo|
  {
    assert todo[0] in todo;
    var more;
    v', keysToRemove', rest', more := VisitLevel(m, v, keysToRemove, todo[0], rest);
    WalkGoesOn(b, taker, v, keysToRemove, filled, todo, rest, v', keysToRemove');
    filled' := filled + more;
    todo' := if rest'.sz == 0 then [] else todo[1..];
  }

  /**
   match_order: walk the maker levels best first, collecting the filled makers and the emptied
   prices, and drop the latter only after the walk.
   */
  method MatchOrder(m: SideMap, ghost v: map<Px, Level>, taker: Order, ghost b: Book)
    returns (kept: SideMap, ghost v': map<Px, Level>, rest: Order, filled: seq<Oid>)
    requires Shown(m, v).Some? && LevelsOf(b, Opposite(taker.side)) == v
    modifies Objects(m)
    ensures Shown(kept, v').Some? && Objects(kept) <= Objects(m)
    ensures MatchIncoming(b, taker) == BookMatch(Walked(b, taker.side, v', filled), rest.sz, filled)
    ensures rest == taker.(sz := rest.sz)
  {
    var todo := BestFirst(Opposite(taker.side), m.Keys);
    var keysToRemove: seq<Px> := [];
    v', rest, filled := v, taker, [];
    WalkStarts(b, taker, v);
    while todo != [] && Crosses(taker.side, taker.px, todo[0])
      invariant Shows(m, v')
      invariant OnTheWay(b, taker, v', keysToRemove, filled, todo, rest)
      decreases |todo|
    {
      v', keysToRemove, filled, todo, rest := WalkOn(m, v', keysToRemove, filled, todo, rest, b, taker);
    }
    WalkEnds(b, taker, v', keysToRemove, filled, todo, rest);
    DroppedShows(m, v', Prices(keysToRemove));
    kept := m - Prices(keysToRemove);
    v' := v' - Prices(keysToRemove);
  }

  lemma LevelIsOwned(m: SideMap, px: Px)
    requires px in m
    ensures m[px] in Objects(m) && m[px].orders in Objects(m)
  {
  }

  // ----- one side as an object -----

  /** The price map of one side: an object that owns its levels. */
  class BookSide {
    var levels: SideMap
    ghost var view: map<Px, Level>
    ghost var Repr: set<object>

    /** The levels this side stands for, if it is well formed. */
    ghost function Stock(): Option<map<Px, Level>>
      reads this, Repr
    {
      if this in Repr && Objects(levels) <= Repr && this !in Objects(levels) && Shown(levels, view).Some? then Some(view) else None
    }

    constructor ()
      ensures Stock() == Some(map[]) && fresh(Repr)
    {
      levels, view := map[], map[];
      Repr := {this};
    }

    /** Let the side be this map, which stands for these levels. */
    method Become(m: SideMap, ghost v: map<Px, Level>)
      requires this in Repr && this !in Objects(m) && Shown(m, v).Some?
      modifies this
      ensures Stock() == Some(v) && Repr == old(Repr) + Objects(m)
    {
      levels, view, Repr := m, v, Repr + Objects(m);
    }

    method RemoveOrder(px: Px, oid: Oid, ghost v: map<Px, Level>) returns (found: bool)
      requires Stock() == Some(v) && px in v
      modifies Repr
      ensures Stock() == Some(PutIn(v, px, Remove(v[px], oid))) && fresh(Repr - old(Repr))
      ensures found == Queued(v[px].queue, oid)
    {
      LevelIsOwned(levels, px);
      var kept;
      kept, found := RemoveFrom(levels, v, px, oid);
      Become(kept, PutIn(v, px, Remove(v[px], oid)));
    }

    method ResizeOrder(px: Px, oid: Oid, sz: Sz, ghost v: map<Px, Level>) returns (found: bool)
      requires Stock() == Some(v) && px in v
      modifies Repr
      ensures Stock() == Some(v[px := ModifySz(v[px], oid, sz)]) && fresh(Repr - old(Repr))
      ensures found == Queued(v[px].queue, oid)
    {
      LevelIsOwned(levels, px);
      found := Resize(levels, v, px, oid, sz);
      Become(levels, v[px := ModifySz(v[px], oid, sz)]);
    }

    method RestOrder(order: Order, insertBefore: Option<Oid>, ghost v: map<Px, Level>) returns (fellBack: bool)
      requires Stock() == Some(v)
      modifies Repr
      ensures Stock() == Some(v[order.px := RestAt(LevelOr(v, order.px), order, insertBefore)]) && fresh(Repr - old(Repr))
      ensures fellBack == FallsBack(LevelOr(v, order.px), insertBefore)
    {
      var kept;
      kept, fellBack := AddOrderToBook(levels, v, order, insertBefore);
      Become(kept, v[order.px := RestAt(LevelOr(v, order.px), order, insertBefore)]);
    }

    /** Fill an incoming order of the other side from these levels. */
    method MatchIncomingOrder(taker: Order, ghost b: Book) returns (rest: Order, filled: seq<Oid>, ghost v': map<Px, Level>)
      requires Stock() == Some(LevelsOf(b, Opposite(taker.side)))
      modifies Repr
      ensures Stock() == Some(v') && fresh(Repr - old(Repr))
      ensures MatchIncoming(b, taker) == BookMatch(Walked(b, taker.side, v', filled), rest.sz, filled)
      ensures rest == taker.(sz := rest.sz)
    {
      var kept;
      kept, v', rest, filled := MatchOrder(levels, view, taker, b);
      Become(kept, v');
    }
  }

  // ----- the book -----

  class OrderBook {
    var oidToSidePx: map<Oid, Loc>
    const bids: BookSide
    const asks: BookSide

    /** Both sides are well formed and share no object. */
    ghost predicate Valid()
      reads this, bids, bids.Repr, asks, asks.Repr
    {
      && this !in bids.Repr && this !in asks.Repr && bids.Repr !! asks.Repr
      && bids.Stock().Some? && asks.Stock().Some?
    }

    ghost function View(): Book
      requires Valid()
      reads this, bids, bids.Repr, asks, asks.Repr
    {
      Book(oidToSidePx, bids.Stock().value, asks.Stock().value)
    }

    constructor ()
      ensures Valid() && View() == EMPTY_BOOK && fresh(bids.Repr) && fresh(asks.Repr)
    {
      oidToSidePx := map[];
      bids := new BookSide();
      asks := new BookSide();
    }

    /** The filled makers leave the index. */
    method ForgetOids(oids: seq<Oid>)
      modifies this
      ensures oidToSidePx == old(oidToSidePx) - Elems(oids)
    {
      var i := 0;
      while i < |oids|
        invariant 0 <= i <= |oids|
        invariant oidToSidePx == old(oidToSidePx) - Elems(oids[..i])
      {
        ElemsSnoc(oids, i);
        oidToSidePx := oidToSidePx - {oids[i]};
        i := i + 1;
      }
      assert oids[..|oids|] == oids;
    }

    method RemoveOn(side: Side, px: Px, oid: Oid) returns (found: bool)
      requires Valid() && px in LevelsOf(View(), side)
      modifies bids.Repr, asks.Repr
      ensures Valid() && View() == WithLevels(old(View()), side, PutIn(LevelsOf(old(View()), side), px, Remove(LevelsOf(old(View()), side)[px], oid)))
      ensures found == Queued(LevelsOf(old(View()), side)[px].queue, oid)
      ensures fresh(bids.Repr - old(bids.Repr)) && fresh(asks.Repr - old(asks.Repr))
    {
      if side == Ask {
        found := asks.RemoveOrder(px, oid, View().asks);
      } else {
        found := bids.RemoveOrder(px, oid, View().bids);
      }
    }

    method CancelOrder(oid: Oid) returns (found: bool)
      requires Valid()
      modifies this, bids.Repr, asks.Repr
      ensures Valid() && (View(), found) == Cancel(old(View()), oid)
      ensures fresh(bids.Repr - old(bids.Repr)) && fresh(asks.Repr - old(asks.Repr))
    {
      if oid !in oidToSidePx {
        return false;
      }
      var Loc(side, px) := oidToSidePx[oid];
      oidToSidePx := oidToSidePx - {oid};
      var there := HasPrice(side, px);
      if !there {
        return false;
      }
      found := RemoveOn(side, px, oid);
    }

    method HasPrice(side: Side, px: Px) returns (there: bool)
      requires Valid()
      ensures there == (px in LevelsOf(View(), side))
    {
      there := if side == Ask then px in asks.levels else px in bids.levels;
    }

    method ResizeOn(side: Side, px: Px, oid: Oid, sz: Sz) returns (found: bool)
      requires Valid() && px in LevelsOf(View(), side)
      modifies bids.Repr, asks.Repr
      ensures Valid() && View() == WithLevels(old(View()), side, LevelsOf(old(View()), side)[px := ModifySz(LevelsOf(old(View()), side)[px], oid, sz)])
      ensures found == Queued(LevelsOf(old(View()), side)[px].queue, oid)
      ensures fresh(bids.Repr - old(bids.Repr)) && fresh(asks.Repr - old(asks.Repr))
    {
      if side == Ask {
        found := asks.ResizeOrder(px, oid, sz, View().asks);
      } else {
        found := bids.ResizeOrder(px, oid, sz, View().bids);
      }
    }

    method ModifyOrderSz(oid: Oid, sz: Sz) returns (found: bool)
      requires Valid()
      modifies this, bids.Repr, asks.Repr
      ensures Valid() && (View(), found) == Modify(old(View()), oid, sz)
      ensures fresh(bids.Repr - old(bids.Repr)) && fresh(asks.Repr - old(asks.Repr))
    {
      if sz == 0 {
        found := CancelOrder(oid);
        return;
      }
      if oid !in oidToSidePx {
        return false;
      }
      var Loc(side, px) := oidToSidePx[oid];
      var there := HasPrice(side, px);
      if !there {
        return false;
      }
      found := ResizeOn(side, px, oid, sz);
    }

    /** Match against the other side; the filled makers leave the index. */
    method TakeFrom(taker: Order) returns (rest: Order)
      requires Valid()
      modifies this, bids.Repr, asks.Repr
      ensures Valid() && rest == taker.(sz := MatchIncoming(old(View()), taker).rest)
      ensures View() == MatchIncoming(old(View()), taker).book
      ensures fresh(bids.Repr - old(bids.Repr)) && fresh(asks.Repr - old(asks.Repr))
    {
      var filled;
      ghost var left;
      if taker.side == Ask {
        rest, filled, left := bids.MatchIncomingOrder(taker, View());
      } else {
        rest, filled, left := asks.MatchIncomingOrder(taker, View());
      }
      ForgetOids(filled);
    }

    method RestOn(order: Order, insertBefore: Option<Oid>) returns (fellBack: bool)
      requires Valid()
      modifies this, bids.Repr, asks.Repr
      ensures Valid() && View() == Rest(old(View()), order, insertBefore)
      ensures fellBack == FallsBack(LevelOr(LevelsOf(old(View()), order.side), order.px), insertBefore)
      ensures fresh(bids.Repr - old(bids.Repr)) && fresh(asks.Repr - old(asks.Repr))
    {
      fellBack := QueueOn(order, insertBefore);
      oidToSidePx := oidToSidePx[order.oid := Loc(order.side, order.px)];
    }

    method QueueOn(order: Order, insertBefore: Option<Oid>) returns (fellBack: bool)
      requires Valid()
      modifies bids.Repr, asks.Repr
      ensures var levels := LevelsOf(old(View()), order.side);
              && Valid()
              && View() == WithLevels(old(View()), order.side, levels[order.px := RestAt(LevelOr(levels, order.px), order, insertBefore)])
              && fellBack == FallsBack(LevelOr(levels, order.px), insertBefore)
      ensures fresh(bids.Repr - old(bids.Repr)) && fresh(asks.Repr - old(asks.Repr))
    {
      if order.side == Ask {
        fellBack := asks.RestOrder(order, insertBefore, View().asks);
      } else {
        fellBack := bids.RestOrder(order, insertBefore, View().bids);
      }
    }

    /** Match, then rest what is left; an oid that is already in the book is ignored. */
    method AddOrderBefore(order: Order, insertBefore: Option<Oid>) returns (fellBack: bool)
      requires Valid()
      modifies this, bids.Repr, asks.Repr
      ensures Valid() && (View(), fellBack) == Add(old(View()), order, insertBefore)
      ensures fresh(bids.Repr - old(bids.Repr)) && fresh(asks.Repr - old(asks.Repr))
    {
      if order.oid in oidToSidePx {
        return false;
      }
      var rest := TakeFrom(order);
      if rest.sz > 0 {
        fellBack := RestOn(rest, insertBefore);
      } else {
        fellBack := false;
      }
    }
  }
}
