/**
 What an L2 view shows, said of the book alone: every price level is counted in exactly the entry it
 rounds to, entries run outwards from the touch, and what a cap leaves out lies further out still.
 */
module L2View {
  import opened Types
  import opened Levels
  import opened BookCore
  import opened Buckets
  import opened L2Levels

  // ----- the description -----

  /** Price p is further from the touch than q. */
  predicate FurtherOut(side: Side, p: Px, q: Px) {
    match side
    case Ask => q < p
    case Bid => p < q
  }

  predicate RunOutwards(side: Side, ps: seq<Px>) {
    forall i, j :: 0 <= i < j < |ps| ==> FurtherOut(side, ps[j], ps[i])
  }

  /** The aggregates of these levels added up. */
  function SizeAt(levels: map<Px, Level>, ps: seq<Px>): nat
    requires forall i :: 0 <= i < |ps| ==> ps[i] in levels
  {
    if ps == [] then 0 else levels[ps[0]].total + SizeAt(levels, ps[1..])
  }

  /** The orders queued at these levels. */
  function OrdersAt(levels: map<Px, Level>, ps: seq<Px>): nat
    requires forall i :: 0 <= i < |ps| ==> ps[i] in levels
  {
    if ps == [] then 0 else |levels[ps[0]].queue| + OrdersAt(levels, ps[1..])
  }

  /** `ps` are all the prices with a level that are shown at price b, each once. */
  ghost predicate ShownAt(levels: map<Px, Level>, side: Side, shape: Shape, b: Px, ps: seq<Px>) {
    && RunOutwards(side, ps)
    && (forall i :: 0 <= i < |ps| ==> ps[i] in levels)
    && (forall p :: p in levels ==> (p in ps <==> RoundsTo(p, b, side, shape)))
  }

  /** An entry sums up all the levels that are shown at its price, of which there is one. */
  ghost predicate EntryOf(levels: map<Px, Level>, side: Side, shape: Shape, e: L2Level, ps: seq<Px>) {
    && ShownAt(levels, side, shape, e.px, ps) && ps != []
    && e.sz == Min(SizeAt(levels, ps), U64_MAX)
    && e.n == OrdersAt(levels, ps)
  }

  ghost predicate IsEntry(levels: map<Px, Level>, side: Side, shape: Shape, e: L2Level) {
    exists ps :: EntryOf(levels, side, shape, e, ps)
  }

  /** A level is in an entry, or the view is full and the level lies beyond all of it. */
  ghost predicate Placed(levels: map<Px, Level>, side: Side, shape: Shape, cap: nat, view: seq<L2Level>, p: Px) {
    || (exists i :: 0 <= i < |view| && RoundsTo(p, view[i].px, side, shape))
    || (|view| == cap && forall i :: 0 <= i < |view| ==> FurtherOut(side, p, view[i].px))
  }

  /** The view of one side of a book, cut at a number of entries. */
  ghost predicate IsTopOf(levels: map<Px, Level>, side: Side, shape: Shape, cap: nat, view: seq<L2Level>) {
    && |view| <= cap
    && (forall i, j :: 0 <= i < j < |view| ==> FurtherOut(side, view[j].px, view[i].px))
    && (forall i :: 0 <= i < |view| ==> IsEntry(levels, side, shape, view[i]))
    && (forall p :: p in levels ==> Placed(levels, side, shape, cap, view, p))
  }

  // ----- grouping, entry by entry -----

  lemma {:induction false} InOutOfBucket(ls: seq<L2Level>, b: Px, b0: Px, side: Side, shape: Shape)
    requires ValidShape(shape) && b != b0
    ensures InBucket(OutOfBucket(ls, b0, side, shape), b, side, shape) == InBucket(ls, b, side, shape)
  {
    if ls != [] {
      InOutOfBucket(ls[1..], b, b0, side, shape);
      var later := OutOfBucket(ls[1..], b0, side, shape);
      assert ([ls[0]] + later)[1..] == later && [] + later == later;
      assert [] + InBucket(ls[1..], b, side, shape) == InBucket(ls[1..], b, side, shape);
    }
  }

  lemma {:induction false} OutIsNotIn(ls: seq<L2Level>, b: Px, side: Side, shape: Shape, j: nat)
    requires ValidShape(shape) && j < |OutOfBucket(ls, b, side, shape)|
    ensures OutOfBucket(ls, b, side, shape)[j] in ls && Bucket(OutOfBucket(ls, b, side, shape)[j].px, side, shape) != b
  {
    if Bucket(ls[0].px, side, shape) == b {
      OutIsNotIn(ls[1..], b, side, shape, j);
    } else if j > 0 {
      OutIsNotIn(ls[1..], b, side, shape, j - 1);
    }
  }

  lemma {:induction false} NotInIsOut(ls: seq<L2Level>, b: Px, side: Side, shape: Shape, l: L2Level)
    requires ValidShape(shape) && l in ls && Bucket(l.px, side, shape) != b
    ensures l in OutOfBucket(ls, b, side, shape)
  {
    if l != ls[0] {
      NotInIsOut(ls[1..], b, side, shape, l);
    }
  }

  lemma LaterBucket(ls: seq<L2Level>, side: Side, shape: Shape, g: Px)
    requires ValidShape(shape) && ls != [] && Bucket(ls[0].px, side, shape) != g
    ensures InBucket(ls, g, side, shape)
         == InBucket(OutOfBucket(ls[1..], Bucket(ls[0].px, side, shape), side, shape), g, side, shape)
  {
    InOutOfBucket(ls[1..], g, Bucket(ls[0].px, side, shape), side, shape);
    assert [] + InBucket(ls[1..], g, side, shape) == InBucket(ls[1..], g, side, shape);
  }

  /** A group is the total of its bucket, and its price is the bucket of some level. */
  lemma {:induction false} GroupIs(ls: seq<L2Level>, side: Side, shape: Shape, i: nat) returns (l: L2Level)
    requires ValidShape(shape) && i < |Groups(ls, side, shape)|
    ensures var g := Groups(ls, side, shape)[i];
            l in ls && g.px == Bucket(l.px, side, shape) && g == Total(g.px, InBucket(ls, g.px, side, shape))
    decreases |ls|
  {
    var b := Bucket(ls[0].px, side, shape);
    if i == 0 {
      l := ls[0];
    } else {
      var rest := OutOfBucket(ls[1..], b, side, shape);
      l := GroupIs(rest, side, shape, i - 1);
      var j :| 0 <= j < |rest| && rest[j] == l;
      OutIsNotIn(ls[1..], b, side, shape, j);
      LaterBucket(ls, side, shape, Groups(rest, side, shape)[i - 1].px);
    }
  }

  /** Every level's bucket has a group. */
  lemma {:induction false} LevelHasGroup(ls: seq<L2Level>, side: Side, shape: Shape, l: L2Level) returns (i: nat)
    requires ValidShape(shape) && l in ls
    ensures i < |Groups(ls, side, shape)| && Groups(ls, side, shape)[i].px == Bucket(l.px, side, shape)
    decreases |ls|
  {
    var b := Bucket(ls[0].px, side, shape);
    if Bucket(l.px, side, shape) == b {
      i := 0;
    } else {
      NotInIsOut(ls[1..], b, side, shape, l);
      var j := LevelHasGroup(OutOfBucket(ls[1..], b, side, shape), side, shape, l);
      i := j + 1;
    }
  }

  // ----- from raw levels back to prices -----

  /** The prices shown at b. */
  function PricesIn(keys: seq<Px>, b: Px, side: Side, shape: Shape): seq<Px>
    requires ValidShape(shape)
  {
    if keys == [] then []
    else (if Bucket(keys[0], side, shape) == b then [keys[0]] else []) + PricesIn(keys[1..], b, side, shape)
  }

  lemma {:induction false} PricesInAre(keys: seq<Px>, b: Px, side: Side, shape: Shape)
    requires ValidShape(shape) && RunOutwards(side, keys)
    ensures var ps := PricesIn(keys, b, side, shape);
            && RunOutwards(side, ps)
            && (forall p :: p in ps <==> p in keys && Bucket(p, side, shape) == b)
  {
    if keys != [] {
      var later := PricesIn(keys[1..], b, side, shape);
      PricesInAre(keys[1..], b, side, shape);
      assert forall p :: p in keys <==> p == keys[0] || p in keys[1..];
      forall j | 0 <= j < |later|
        ensures FurtherOut(side, later[j], keys[0])
      {
        assert later[j] in later && later[j] in keys[1..];
      }
    }
  }

  lemma {:induction false} BucketOfRaw(levels: map<Px, Level>, keys: seq<Px>, b: Px, side: Side, shape: Shape)
    requires ValidShape(shape) && forall i :: 0 <= i < |keys| ==> keys[i] in levels
    ensures InBucket(RawLevels(levels, keys), b, side, shape) == RawLevels(levels, PricesIn(keys, b, side, shape))
  {
    if keys != [] {
      BucketOfRaw(levels, keys[1..], b, side, shape);
      var l, later := L2Level(keys[0], levels[keys[0]].total, |levels[keys[0]].queue|), RawLevels(levels, keys[1..]);
      assert ([l] + later)[1..] == later;
      var ps := PricesIn(keys[1..], b, side, shape);
      assert ([keys[0]] + ps)[1..] == ps && [] + ps == ps;
      assert [] + RawLevels(levels, ps) == RawLevels(levels, ps);
    }
  }

  lemma {:induction false} RawSums(levels: map<Px, Level>, ps: seq<Px>)
    requires forall i :: 0 <= i < |ps| ==> ps[i] in levels
    ensures SumOf(RawLevels(levels, ps)) == SizeAt(levels, ps) && CountOf(RawLevels(levels, ps)) == OrdersAt(levels, ps)
  {
    if ps != [] {
      RawSums(levels, ps[1..]);
      SumCons(L2Level(ps[0], levels[ps[0]].total, |levels[ps[0]].queue|), RawLevels(levels, ps[1..]));
    }
  }

  lemma {:induction false} RawHas(levels: map<Px, Level>, keys: seq<Px>, p: Px) returns (l: L2Level)
    requires p in keys && p in levels
    ensures l in RawLevels(levels, keys) && l.px == p
  {
    if p == keys[0] {
      l := L2Level(p, levels[p].total, |levels[p].queue|);
      assert RawLevels(levels, keys)[0] == l;
    } else {
      l := RawHas(levels, keys[1..], p);
    }
  }

  // ----- a side of a snapshot -----

  ghost predicate KeysOf(levels: map<Px, Level>, side: Side, keys: seq<Px>) {
    RunOutwards(side, keys) && forall p :: p in keys <==> p in levels
  }

  lemma BestFirstAreKeys(levels: map<Px, Level>, side: Side)
    ensures KeysOf(levels, side, BestFirst(side, levels.Keys)) && Sorted(side, BestFirst(side, levels.Keys))
  {
  }

  lemma GroupIsEntry(levels: map<Px, Level>, side: Side, shape: Shape, keys: seq<Px>, i: nat)
    requires ValidShape(shape) && KeysOf(levels, side, keys) && i < |Groups(RawLevels(levels, keys), side, shape)|
    ensures IsEntry(levels, side, shape, Groups(RawLevels(levels, keys), side, shape)[i])
  {
    var raw := RawLevels(levels, keys);
    var g := Groups(raw, side, shape)[i];
    var l := GroupIs(raw, side, shape, i);
    var ps := PricesIn(keys, g.px, side, shape);
    PricesInAre(keys, g.px, side, shape);
    assert forall k :: 0 <= k < |keys| ==> keys[k] in levels;
    assert forall k :: 0 <= k < |ps| ==> ps[k] in keys;
    BucketOfRaw(levels, keys, g.px, side, shape);
    RawSums(levels, ps);
    forall p | p in levels
      ensures p in ps <==> RoundsTo(p, g.px, side, shape)
    {
      BucketIsRounding(p, g.px, side, shape);
    }
    RawIsOfKeys(levels, keys, l);
    assert l.px in ps;
    assert EntryOf(levels, side, shape, g, ps);
  }

  lemma {:induction false} RawIsOfKeys(levels: map<Px, Level>, keys: seq<Px>, l: L2Level)
    requires l in RawLevels(levels, keys)
    ensures l.px in keys
  {
    if !(keys[0] in levels && l == L2Level(keys[0], levels[keys[0]].total, |levels[keys[0]].queue|)) {
      RawIsOfKeys(levels, keys[1..], l);
    }
  }

  /** A level whose bucket lies beyond another's lies beyond that bucket's price. */
  lemma BeyondTheBucket(p: Px, p0: Px, side: Side, shape: Shape)
    requires ValidShape(shape) && Beyond(side, Bucket(p, side, shape), Bucket(p0, side, shape))
    ensures FurtherOut(side, p, Bucket(p0, side, shape))
  {
    if p == p0 || Beyond(side, p, p0) {
      BucketIsDecidedByPrice(p, p0, side, shape);
    } else {
      BucketIsDecidedByPrice(p0, p, side, shape);
    }
  }

  lemma LevelIsPlaced(levels: map<Px, Level>, side: Side, shape: Shape, cap: nat, keys: seq<Px>, p: Px)
    requires ValidShape(shape) && KeysOf(levels, side, keys) && Sorted(side, keys) && p in levels
    ensures Placed(levels, side, shape, cap, Take(Groups(RawLevels(levels, keys), side, shape), Some(cap)), p)
  {
    var raw := RawLevels(levels, keys);
    var groups := Groups(raw, side, shape);
    var view := Take(groups, Some(cap));
    var l := RawHas(levels, keys, p);
    var j := LevelHasGroup(raw, side, shape, l);
    BucketIsRounding(p, groups[j].px, side, shape);
    if j < |view| {
      assert view[j] == groups[j];
    } else {
      RawIsSorted(levels, side, keys);
      GroupsAreSorted(raw, side, shape);
      forall i | 0 <= i < |view|
        ensures FurtherOut(side, p, view[i].px)
      {
        assert view[i] == groups[i] && Beyond(side, groups[j].px, groups[i].px);
        var l0 := GroupIs(raw, side, shape, i);
        BeyondTheBucket(p, l0.px, side, shape);
      }
    }
  }

  /** A capped side of an L2 snapshot is the top of that side of the book. */
  lemma SideIsTop(levels: map<Px, Level>, side: Side, shape: Shape, cap: nat)
    requires ValidShape(shape)
    ensures IsTopOf(levels, side, shape, cap,
                    Take(Groups(RawLevels(levels, BestFirst(side, levels.Keys)), side, shape), Some(cap)))
  {
    var keys := BestFirst(side, levels.Keys);
    var groups := Groups(RawLevels(levels, keys), side, shape);
    var view := Take(groups, Some(cap));
    BestFirstAreKeys(levels, side);
    RawIsSorted(levels, side, keys);
    GroupsAreSorted(RawLevels(levels, keys), side, shape);
    forall i, j | 0 <= i < j < |view|
      ensures FurtherOut(side, view[j].px, view[i].px)
    {
      assert view[i] == groups[i] && view[j] == groups[j] && Beyond(side, groups[j].px, groups[i].px);
    }
    forall i | 0 <= i < |view|
      ensures IsEntry(levels, side, shape, view[i])
    {
      GroupIsEntry(levels, side, shape, keys, i);
    }
    forall p | p in levels
      ensures Placed(levels, side, shape, cap, view, p)
    {
      LevelIsPlaced(levels, side, shape, cap, keys, p);
    }
  }

  /** A snapshot shows the top of the bids as its bids, and the top of the asks as its asks. */
  lemma SnapshotIsTop(b: Book, cap: nat, shape: Shape)
    requires ValidShape(shape)
    ensures var view := ToL2Snapshot(b, Some(cap), shape);
            IsTopOf(b.bids, Bid, shape, cap, view.bids) && IsTopOf(b.asks, Ask, shape, cap, view.asks)
  {
    SideIsTop(b.bids, Bid, shape, cap);
    SideIsTop(b.asks, Ask, shape, cap);
  }

  /** Cutting a view again leaves the top at the smaller cap. */
  lemma TakeIsTop(levels: map<Px, Level>, side: Side, shape: Shape, cap: nat, view: seq<L2Level>, depth: nat)
    requires ValidShape(shape) && IsTopOf(levels, side, shape, cap, view)
    ensures IsTopOf(levels, side, shape, Min(cap, depth), Take(view, Some(depth)))
  {
    var top := Take(view, Some(depth));
    forall p | p in levels
      ensures Placed(levels, side, shape, Min(cap, depth), top, p)
    {
      assert Placed(levels, side, shape, cap, view, p);
      if i :| 0 <= i < |view| && RoundsTo(p, view[i].px, side, shape) {
        if i >= |top| {
          forall k | 0 <= k < |top|
            ensures FurtherOut(side, p, top[k].px)
          {
            BehindAShownEntry(levels, side, shape, view[k], view[i].px, p);
          }
        } else {
          assert top[i] == view[i];
        }
      }
    }
  }

  lemma BehindAShownEntry(levels: map<Px, Level>, side: Side, shape: Shape, e: L2Level, b: Px, p: Px)
    requires ValidShape(shape) && IsEntry(levels, side, shape, e) && RoundsTo(p, b, side, shape) && FurtherOut(side, b, e.px)
    ensures FurtherOut(side, p, e.px)
  {
    var ps :| EntryOf(levels, side, shape, e, ps);
    assert ps[0] in levels && ps[0] in ps;
    BucketIsRounding(ps[0], e.px, side, shape);
    BucketIsRounding(p, b, side, shape);
    BeyondTheBucket(p, ps[0], side, shape);
  }

  lemma SecondIsOther(side: Side, ps: seq<Px>)
    requires RunOutwards(side, ps) && |ps| > 1
    ensures ps[1] != ps[0]
  {
    assert FurtherOut(side, ps[1], ps[0]);
  }

  /** In the raw shape an entry is one level: its price, its aggregate and the length of its queue. */
  lemma RawEntryIsLevel(levels: map<Px, Level>, side: Side, e: L2Level)
    requires IsEntry(levels, side, Shape(None, None), e)
    ensures e.px in levels && e.sz == Min(levels[e.px].total, U64_MAX) && e.n == |levels[e.px].queue|
  {
    var ps :| EntryOf(levels, side, Shape(None, None), e, ps);
    assert forall k :: 0 <= k < |ps| ==> ps[k] in ps && ps[k] == e.px;
    if |ps| > 1 {
      SecondIsOther(side, ps);
      assert false;
    }
    assert ps == [e.px] && ps[1..] == [];
    assert SizeAt(levels, ps) == levels[e.px].total + SizeAt(levels, ps[1..]);
    assert OrdersAt(levels, ps) == |levels[e.px].queue| + OrdersAt(levels, ps[1..]);
  }

  // ----- the description leaves no choice -----

  lemma EntryIsDetermined(levels: map<Px, Level>, side: Side, shape: Shape, e: L2Level, f: L2Level)
    requires IsEntry(levels, side, shape, e) && IsEntry(levels, side, shape, f) && e.px == f.px
    ensures e == f
  {
    var ps :| EntryOf(levels, side, shape, e, ps);
    var qs :| EntryOf(levels, side, shape, f, qs);
    forall p
      ensures p in ps <==> p in qs
    {
    }
    assert Sorted(side, ps) && Sorted(side, qs);
    SortedIsUnique(side, ps, qs);
  }

  function PricesOf(view: seq<L2Level>): (ps: seq<Px>)
    ensures |ps| == |view| && forall i :: 0 <= i < |view| ==> ps[i] == view[i].px
  {
    seq(|view|, i requires 0 <= i < |view| => view[i].px)
  }

  /** An entry that a view lacks lies, with all its levels, beyond every entry of that view. */
  lemma LacksEntry(levels: map<Px, Level>, side: Side, shape: Shape, cap: nat, view: seq<L2Level>, e: L2Level, j: nat)
    requires ValidShape(shape) && IsTopOf(levels, side, shape, cap, view) && IsEntry(levels, side, shape, e)
    requires e.px !in PricesOf(view) && j < |view|
    ensures FurtherOut(side, e.px, view[j].px)
  {
    var ps :| EntryOf(levels, side, shape, e, ps);
    var p := ps[0];
    assert p in ps && RoundsTo(p, e.px, side, shape);
    assert Placed(levels, side, shape, cap, view, p);
    BucketIsRounding(p, e.px, side, shape);
    forall i | 0 <= i < |view|
      ensures !RoundsTo(p, view[i].px, side, shape)
    {
      BucketIsRounding(p, view[i].px, side, shape);
      assert PricesOf(view)[i] == view[i].px;
    }
    assert FurtherOut(side, p, view[j].px);
    var qs :| EntryOf(levels, side, shape, view[j], qs);
    assert qs[0] in qs;
    BucketIsRounding(qs[0], view[j].px, side, shape);
    BucketsKeepOrder(p, qs[0], side, shape);
  }

  /** A view that lacks an entry is full. */
  lemma LackingIsFull(levels: map<Px, Level>, side: Side, shape: Shape, cap: nat, view: seq<L2Level>, e: L2Level)
    requires ValidShape(shape) && IsTopOf(levels, side, shape, cap, view) && IsEntry(levels, side, shape, e)
    requires e.px !in PricesOf(view)
    ensures |view| == cap
  {
    var ps :| EntryOf(levels, side, shape, e, ps);
    assert ps[0] in ps && RoundsTo(ps[0], e.px, side, shape);
    BucketIsRounding(ps[0], e.px, side, shape);
    assert Placed(levels, side, shape, cap, view, ps[0]);
    forall i | 0 <= i < |view|
      ensures !RoundsTo(ps[0], view[i].px, side, shape)
    {
      BucketIsRounding(ps[0], view[i].px, side, shape);
      assert PricesOf(view)[i] == view[i].px;
    }
  }

  lemma NoNearer(side: Side, ps: seq<Px>, i: nat, j: nat)
    requires RunOutwards(side, ps) && i <= j < |ps|
    ensures !FurtherOut(side, ps[i], ps[j])
  {
    if i < j {
      assert FurtherOut(side, ps[j], ps[i]);
    }
  }

  /** Where one list of prices has all those of another, the other's come no sooner in it. */
  lemma {:induction false} ComesNoSooner(side: Side, ps: seq<Px>, qs: seq<Px>, j: nat) returns (k: nat)
    requires RunOutwards(side, ps) && RunOutwards(side, qs) && j < |qs|
    requires forall q :: q in qs ==> q in ps
    ensures j <= k < |ps| && ps[k] == qs[j]
  {
    assert qs[j] in ps;
    k :| 0 <= k < |ps| && ps[k] == qs[j];
    if j > 0 {
      var before := ComesNoSooner(side, ps, qs, j - 1);
      assert FurtherOut(side, qs[j], qs[j - 1]);
      if k <= before {
        NoNearer(side, ps, k, before);
        assert false;
      }
    }
  }

  /** As many prices, all of them among the others, reach as far out as the others do. */
  lemma LastIsNotNearer(side: Side, ps: seq<Px>, qs: seq<Px>, i: nat)
    requires RunOutwards(side, ps) && RunOutwards(side, qs) && i < |ps| <= |qs|
    requires forall q :: q in qs ==> q in ps
    ensures !FurtherOut(side, ps[i], qs[|qs| - 1])
  {
    var k := ComesNoSooner(side, ps, qs, |qs| - 1);
    NoNearer(side, ps, i, k);
  }

  /** A view that lacks an entry of another has one that the other lacks: both would be full. */
  lemma EachLacksOne(levels: map<Px, Level>, side: Side, shape: Shape, cap: nat, v: seq<L2Level>, w: seq<L2Level>, i: nat)
    returns (j: nat)
    requires ValidShape(shape) && IsTopOf(levels, side, shape, cap, v) && IsTopOf(levels, side, shape, cap, w) && i < |v|
    requires v[i].px !in PricesOf(w)
    ensures j < |w| && w[j].px !in PricesOf(v)
  {
    LackingIsFull(levels, side, shape, cap, w, v[i]);
    LacksEntry(levels, side, shape, cap, w, v[i], |w| - 1);
    if forall j :: 0 <= j < |w| ==> w[j].px in PricesOf(v) {
      LastEntryIsNotNearer(side, v, w, i);
      assert false;
    }
    j :| j < |w| && w[j].px !in PricesOf(v);
  }

  /** But each of these would lie beyond the other. */
  lemma NothingIsLacking(levels: map<Px, Level>, side: Side, shape: Shape, cap: nat, v: seq<L2Level>, w: seq<L2Level>, i: nat)
    requires ValidShape(shape) && IsTopOf(levels, side, shape, cap, v) && IsTopOf(levels, side, shape, cap, w) && i < |v|
    ensures v[i].px in PricesOf(w)
  {
    if v[i].px !in PricesOf(w) {
      var j := EachLacksOne(levels, side, shape, cap, v, w, i);
      LacksEntry(levels, side, shape, cap, w, v[i], j);
      LacksEntry(levels, side, shape, cap, v, w[j], i);
      assert false;
    }
  }

  lemma LastEntryIsNotNearer(side: Side, v: seq<L2Level>, w: seq<L2Level>, i: nat)
    requires RunOutwards(side, PricesOf(v)) && RunOutwards(side, PricesOf(w)) && i < |v| <= |w|
    requires forall j :: 0 <= j < |w| ==> w[j].px in PricesOf(v)
    ensures !FurtherOut(side, v[i].px, w[|w| - 1].px)
  {
    var ps, qs := PricesOf(v), PricesOf(w);
    LastIsNotNearer(side, ps, qs, i);
    assert ps[i] == v[i].px && qs[|qs| - 1] == w[|w| - 1].px;
  }

  /** A side of a book has one top: the description fixes every entry of the view. */
  lemma TopIsDetermined(levels: map<Px, Level>, side: Side, shape: Shape, cap: nat, v: seq<L2Level>, w: seq<L2Level>)
    requires ValidShape(shape) && IsTopOf(levels, side, shape, cap, v) && IsTopOf(levels, side, shape, cap, w)
    ensures v == w
  {
    var ps, qs := PricesOf(v), PricesOf(w);
    forall p
      ensures p in ps <==> p in qs
    {
      if k :| 0 <= k < |ps| && ps[k] == p {
        NothingIsLacking(levels, side, shape, cap, v, w, k);
      }
      if k :| 0 <= k < |qs| && qs[k] == p {
        NothingIsLacking(levels, side, shape, cap, w, v, k);
      }
    }
    assert Sorted(side, ps) && Sorted(side, qs);
    SortedIsUnique(side, ps, qs);
    forall i | 0 <= i < |v|
      ensures v[i] == w[i]
    {
      assert ps[i] == qs[i];
      EntryIsDetermined(levels, side, shape, v[i], w[i]);
    }
  }

  /** A price beyond a bucket's price has its own bucket beyond it. */
  lemma BucketsKeepOrder(p: Px, p0: Px, side: Side, shape: Shape)
    requires ValidShape(shape) && FurtherOut(side, p, Bucket(p0, side, shape))
    ensures FurtherOut(side, Bucket(p, side, shape), Bucket(p0, side, shape))
  {
    if p == p0 || Beyond(side, p, p0) {
      BucketIsDecidedByPrice(p, p0, side, shape);
    } else {
      BucketIsDecidedByPrice(p0, p0, side, shape);
    }
  }
}
