/** L2 views of a book side: raw levels aggregated into price buckets in one pass, cut at a number of buckets. */
module L2Levels {
  import opened Types
  import opened Levels
  import opened BookCore
  import opened Buckets

  datatype L2Level = L2Level(px: Px, sz: Sz, n: nat)

  // ----- the specification: group by bucket -----

  function SumOf(ls: seq<L2Level>): nat {
    if ls == [] then 0 else ls[0].sz + SumOf(ls[1..])
  }

  function CountOf(ls: seq<L2Level>): nat {
    if ls == [] then 0 else ls[0].n + CountOf(ls[1..])
  }

  /** The levels of one bucket. */
  function InBucket(ls: seq<L2Level>, b: Px, side: Side, shape: Shape): (r: seq<L2Level>)
    requires ValidShape(shape)
    ensures |r| <= |ls|
  {
    if ls == [] then []
    else (if Bucket(ls[0].px, side, shape) == b then [ls[0]] else []) + InBucket(ls[1..], b, side, shape)
  }

  function OutOfBucket(ls: seq<L2Level>, b: Px, side: Side, shape: Shape): (r: seq<L2Level>)
    requires ValidShape(shape)
    ensures |r| <= |ls|
  {
    if ls == [] then []
    else (if Bucket(ls[0].px, side, shape) != b then [ls[0]] else []) + OutOfBucket(ls[1..], b, side, shape)
  }

  /** One bucket's level: all sizes and counts in it added up; sizes saturate at 64 bits. */
  function Total(b: Px, ls: seq<L2Level>): L2Level {
    L2Level(b, Min(SumOf(ls), U64_MAX), CountOf(ls))
  }

  /** Group the whole side by bucket, buckets in the order they first appear. */
  function Groups(ls: seq<L2Level>, side: Side, shape: Shape): seq<L2Level>
    requires ValidShape(shape)
    decreases |ls|
  {
    if ls == [] then []
    else
      var b := Bucket(ls[0].px, side, shape);
      [Total(b, InBucket(ls, b, side, shape))] + Groups(OutOfBucket(ls[1..], b, side, shape), side, shape)
  }

  function Take(ls: seq<L2Level>, cap: Option<nat>): seq<L2Level> {
    if cap.Some? && cap.value < |ls| then ls[..cap.value] else ls
  }

  predicate SortedLevels(side: Side, ls: seq<L2Level>) {
    forall i, j :: 0 <= i < j < |ls| ==> Beyond(side, ls[j].px, ls[i].px)
  }

  // ----- the one-pass builder -----

  /** What the levels still to come will contribute, given the bucket being filled. */
  ghost function Outlook(cur: Option<L2Level>, ls: seq<L2Level>, side: Side, shape: Shape): seq<L2Level>
    requires ValidShape(shape)
  {
    if cur.None? then Groups(ls, side, shape)
    else
      var mine := InBucket(ls, cur.value.px, side, shape);
      [L2Level(cur.value.px, Min(cur.value.sz + SumOf(mine), U64_MAX), cur.value.n + CountOf(mine))]
      + Groups(OutOfBucket(ls, cur.value.px, side, shape), side, shape)
  }

  /** The current bucket is that of a price at or before every level still to come. */
  ghost predicate Opened(cur: Option<L2Level>, ls: seq<L2Level>, side: Side, shape: Shape, p0: Px)
    requires ValidShape(shape)
  {
    cur.Some? ==>
      && cur.value.px == Bucket(p0, side, shape) && cur.value.sz <= U64_MAX
      && forall i :: 0 <= i < |ls| ==> Beyond(side, ls[i].px, p0)
  }

  /** When the next level is past the current bucket, so is every later one. */
  lemma {:induction false} BucketIsComplete(ls: seq<L2Level>, side: Side, shape: Shape, p0: Px)
    requires ValidShape(shape) && (forall i :: 0 <= i < |ls| ==> Beyond(side, ls[i].px, p0))
    requires forall i :: 0 <= i < |ls| ==> Beyond(side, ls[i].px, Bucket(p0, side, shape))
    ensures InBucket(ls, Bucket(p0, side, shape), side, shape) == []
    ensures OutOfBucket(ls, Bucket(p0, side, shape), side, shape) == ls
  {
    if ls != [] {
      BucketIsDecidedByPrice(ls[0].px, p0, side, shape);
      BucketIsComplete(ls[1..], side, shape, p0);
    }
  }

  /** Joining a level to the current bucket leaves the outlook unchanged. */
  lemma JoinKeepsOutlook(cur: L2Level, ls: seq<L2Level>, side: Side, shape: Shape)
    requires ValidShape(shape) && ls != [] && Bucket(ls[0].px, side, shape) == cur.px
    ensures Outlook(Some(cur), ls, side, shape)
         == Outlook(Some(L2Level(cur.px, SatAdd(ls[0].sz, cur.sz), cur.n + ls[0].n)), ls[1..], side, shape)
  {
    var mine := InBucket(ls[1..], cur.px, side, shape);
    assert InBucket(ls, cur.px, side, shape) == [ls[0]] + mine;
    SumCons(ls[0], mine);
    assert OutOfBucket(ls, cur.px, side, shape) == OutOfBucket(ls[1..], cur.px, side, shape);
  }

  lemma SumCons(x: L2Level, ls: seq<L2Level>)
    ensures SumOf([x] + ls) == x.sz + SumOf(ls) && CountOf([x] + ls) == x.n + CountOf(ls)
  {
    assert ([x] + ls)[1..] == ls;
  }

  /** Opening a bucket at the next level is what grouping does. */
  lemma OpenKeepsOutlook(ls: seq<L2Level>, side: Side, shape: Shape)
    requires ValidShape(shape) && ls != []
    ensures Groups(ls, side, shape) == Outlook(Some(Opening(ls[0], side, shape)), ls[1..], side, shape)
  {
    var b := Bucket(ls[0].px, side, shape);
    var mine, out := InBucket(ls[1..], b, side, shape), OutOfBucket(ls[1..], b, side, shape);
    GroupsOpen(ls, side, shape, b, mine, out);
    var first := Opening(ls[0], side, shape);
    OutlookIs(first, ls[1..], side, shape, mine, out);
    OpenTotal(ls[0], first, mine, b);
  }

  lemma GroupsOpen(ls: seq<L2Level>, side: Side, shape: Shape, b: Px, mine: seq<L2Level>, out: seq<L2Level>)
    requires ValidShape(shape) && ls != [] && b == Bucket(ls[0].px, side, shape)
    requires mine == InBucket(ls[1..], b, side, shape) && out == OutOfBucket(ls[1..], b, side, shape)
    ensures Groups(ls, side, shape) == [Total(b, [ls[0]] + mine)] + Groups(out, side, shape)
  {
    BucketOpens(ls, side, shape, b);
  }

  lemma OutlookIs(cur: L2Level, ls: seq<L2Level>, side: Side, shape: Shape, mine: seq<L2Level>, out: seq<L2Level>)
    requires ValidShape(shape) && mine == InBucket(ls, cur.px, side, shape) && out == OutOfBucket(ls, cur.px, side, shape)
    ensures Outlook(Some(cur), ls, side, shape)
         == [L2Level(cur.px, Min(cur.sz + SumOf(mine), U64_MAX), cur.n + CountOf(mine))] + Groups(out, side, shape)
  {
  }

  lemma BucketOpens(ls: seq<L2Level>, side: Side, shape: Shape, b: Px)
    requires ValidShape(shape) && ls != [] && b == Bucket(ls[0].px, side, shape)
    ensures InBucket(ls, b, side, shape) == [ls[0]] + InBucket(ls[1..], b, side, shape)
  {
  }

  lemma OpenTotal(x: L2Level, cur: L2Level, mine: seq<L2Level>, b: Px)
    requires cur == L2Level(b, x.sz, x.n)
    ensures [Total(b, [x] + mine)] == [L2Level(cur.px, Min(cur.sz + SumOf(mine), U64_MAX), cur.n + CountOf(mine))]
  {
    SumCons(x, mine);
  }

  lemma OutlookEnds(cur: Option<L2Level>, side: Side, shape: Shape)
    requires ValidShape(shape) && (cur.Some? ==> cur.value.sz <= U64_MAX)
    ensures Outlook(cur, [], side, shape) == if cur.Some? then [cur.value] else []
  {
  }

  /** What one incoming level does to the bucket being filled and the buckets already closed. */
  ghost predicate Built(cur: Option<L2Level>, levels: seq<L2Level>, cap: Option<nat>, shape: Shape, side: Side, level: L2Level,
                        cur': Option<L2Level>, levels': seq<L2Level>, full: bool)
    requires ValidShape(shape)
  {
    var closed := levels + if cur.Some? then [cur.value] else [];
    if cur.Some? && !Beyond(side, level.px, cur.value.px) then
      !full && levels' == levels && cur' == Some(Joined(cur.value, level))
    else
      && levels' == closed
      && (full <==> cap == Some(|closed|))
      && cur' == if full then None else Some(Opening(level, side, shape))
  }

  /** build_l2_level; `full` says the cap is reached and the walk can stop. */
  method BuildL2Level(cur: Option<L2Level>, levels: seq<L2Level>, cap: Option<nat>, shape: Shape, side: Side, level: L2Level)
    returns (cur': Option<L2Level>, levels': seq<L2Level>, full: bool)
    requires ValidShape(shape)
    ensures Built(cur, levels, cap, shape, side, level, cur', levels', full)
  {
    cur', levels', full := cur, levels, false;
    var newBucket := cur.None? || (if side == Ask then level.px > cur.value.px else level.px < cur.value.px);
    if newBucket {
      if cur.Some? {
        levels' := levels' + [cur.value];
      }
      cur' := None;
      if cap == Some(|levels'|) {
        full := true;
        return;
      }
      cur' := Some(L2Level(Bucket(level.px, side, shape), level.sz, level.n));
    } else {
      cur' := Some(L2Level(cur.value.px, SatAdd(level.sz, cur.value.sz), cur.value.n + level.n));
    }
  }

  ghost function Opening(level: L2Level, side: Side, shape: Shape): L2Level
    requires ValidShape(shape)
  {
    L2Level(Bucket(level.px, side, shape), level.sz, level.n)
  }

  ghost function Joined(cur: L2Level, level: L2Level): L2Level {
    L2Level(cur.px, SatAdd(level.sz, cur.sz), cur.n + level.n)
  }

  lemma StepKeepsOutlook(cur: Option<L2Level>, todo: seq<L2Level>, side: Side, shape: Shape, p0: Px)
    requires ValidShape(shape) && todo != [] && SortedLevels(side, todo) && Opened(cur, todo, side, shape, p0)
    requires todo[0].sz <= U64_MAX
    ensures if cur.None? || Beyond(side, todo[0].px, cur.value.px) then
              && Outlook(cur, todo, side, shape)
                 == (if cur.Some? then [cur.value] else []) + Outlook(Some(Opening(todo[0], side, shape)), todo[1..], side, shape)
              && Opened(Some(Opening(todo[0], side, shape)), todo[1..], side, shape, todo[0].px)
            else
              && Outlook(cur, todo, side, shape) == Outlook(Some(Joined(cur.value, todo[0])), todo[1..], side, shape)
              && Opened(Some(Joined(cur.value, todo[0])), todo[1..], side, shape, p0)
  {
    OpenKeepsOutlook(todo, side, shape);
    if cur.Some? {
      BucketIsDecidedByPrice(todo[0].px, p0, side, shape);
      if Beyond(side, todo[0].px, cur.value.px) {
        PastBucket(todo, side, cur.value.px);
        BucketIsComplete(todo, side, shape, p0);
      } else {
        JoinKeepsOutlook(cur.value, todo, side, shape);
      }
    }
  }

  lemma PastBucket(ls: seq<L2Level>, side: Side, px: Px)
    requires ls != [] && SortedLevels(side, ls) && Beyond(side, ls[0].px, px)
    ensures forall i :: 0 <= i < |ls| ==> Beyond(side, ls[i].px, px)
  {
  }

  /** Where the walk stands: the closed buckets and the outlook together are the grouped side. */
  ghost predicate ProgressAt(raw: seq<L2Level>, side: Side, shape: Shape, cap: Option<nat>,
                             cur: Option<L2Level>, levels: seq<L2Level>, todo: seq<L2Level>, p0: Px)
    requires ValidShape(shape)
  {
    && SortedLevels(side, todo) && (forall i :: 0 <= i < |todo| ==> todo[i].sz <= U64_MAX)
    && Opened(cur, todo, side, shape, p0)
    && Groups(raw, side, shape) == levels + Outlook(cur, todo, side, shape)
    && (cap.Some? ==> |levels| + (if cur.Some? then 1 else 0) <= cap.value)
  }

  ghost predicate Progress(raw: seq<L2Level>, side: Side, shape: Shape, cap: Option<nat>,
                           cur: Option<L2Level>, levels: seq<L2Level>, todo: seq<L2Level>)
    requires ValidShape(shape)
  {
    exists p0 :: ProgressAt(raw, side, shape, cap, cur, levels, todo, p0)
  }

  lemma StepProgresses(raw: seq<L2Level>, side: Side, shape: Shape, cap: Option<nat>,
                       cur: Option<L2Level>, levels: seq<L2Level>, todo: seq<L2Level>,
                       cur': Option<L2Level>, levels': seq<L2Level>, full: bool)
    requires ValidShape(shape) && todo != [] && Progress(raw, side, shape, cap, cur, levels, todo)
    requires Built(cur, levels, cap, shape, side, todo[0], cur', levels', full)
    ensures full ==> levels' == Take(Groups(raw, side, shape), cap)
    ensures !full ==> Progress(raw, side, shape, cap, cur', levels', todo[1..])
  {
    var p0 :| ProgressAt(raw, side, shape, cap, cur, levels, todo, p0);
    StepKeepsOutlook(cur, todo, side, shape, p0);
    if cur.Some? && !Beyond(side, todo[0].px, cur.value.px) {
      assert ProgressAt(raw, side, shape, cap, cur', levels', todo[1..], p0);
    } else {
      var closed, ahead := if cur.Some? then [cur.value] else [], Outlook(Some(Opening(todo[0], side, shape)), todo[1..], side, shape);
      Regroup(levels, closed, ahead);
      if full {
        FirstPart(levels', ahead);
      } else {
        assert ProgressAt(raw, side, shape, cap, cur', levels', todo[1..], todo[0].px);
      }
    }
  }

  lemma FirstPart(levels: seq<L2Level>, ahead: seq<L2Level>)
    ensures (levels + ahead)[..|levels|] == levels
  {
  }

  lemma ProgressEnds(raw: seq<L2Level>, side: Side, shape: Shape, cap: Option<nat>, cur: Option<L2Level>, levels: seq<L2Level>)
    requires ValidShape(shape) && Progress(raw, side, shape, cap, cur, levels, [])
    ensures levels + (if cur.Some? then [cur.value] else []) == Take(Groups(raw, side, shape), cap)
  {
    var p0 :| ProgressAt(raw, side, shape, cap, cur, levels, [], p0);
    OutlookEnds(cur, side, shape);
  }

  /** The one-pass builder returns the first buckets of the fully grouped side. */
  method MapToL2Levels(raw: seq<L2Level>, side: Side, cap: Option<nat>, shape: Shape) returns (levels: seq<L2Level>)
    requires ValidShape(shape) && SortedLevels(side, raw) && forall i :: 0 <= i < |raw| ==> raw[i].sz <= U64_MAX
    ensures levels == Take(Groups(raw, side, shape), cap)
  {
    levels := [];
    if cap == Some(0) {
      return;
    }
    var cur: Option<L2Level> := None;
    var todo := raw;
    assert ProgressAt(raw, side, shape, cap, cur, levels, todo, 0);
    while todo != []
      invariant Progress(raw, side, shape, cap, cur, levels, todo)
      decreases |todo|
    {
      var cur', levels', full := BuildL2Level(cur, levels, cap, shape, side, todo[0]);
      StepProgresses(raw, side, shape, cap, cur, levels, todo, cur', levels', full);
      cur, levels := cur', levels';
      if full {
        return;
      }
      todo := todo[1..];
    }
    ProgressEnds(raw, side, shape, cap, cur, levels);
    if cur.Some? {
      levels := levels + [cur.value];
    }
  }

  // ----- what the grouped side is like -----

  lemma {:induction false} OutKeepsOrder(ls: seq<L2Level>, b: Px, side: Side, shape: Shape, q: Px)
    requires ValidShape(shape) && SortedLevels(side, ls) && forall i :: 0 <= i < |ls| ==> Beyond(side, ls[i].px, q)
    ensures var r := OutOfBucket(ls, b, side, shape);
            && SortedLevels(side, r)
            && (forall i :: 0 <= i < |r| ==> Beyond(side, r[i].px, q) && Bucket(r[i].px, side, shape) != b)
  {
    if ls != [] {
      OutKeepsOrder(ls[1..], b, side, shape, q);
      OutKeepsOrder(ls[1..], b, side, shape, ls[0].px);
    }
  }

  /** Every level's bucket lies beyond b. */
  ghost predicate BucketsBeyond(ls: seq<L2Level>, side: Side, shape: Shape, b: Px)
    requires ValidShape(shape)
  {
    ls != [] ==> Beyond(side, Bucket(ls[0].px, side, shape), b) && BucketsBeyond(ls[1..], side, shape, b)
  }

  lemma {:induction false} GroupsLieBeyond(ls: seq<L2Level>, side: Side, shape: Shape, b: Px)
    requires ValidShape(shape) && BucketsBeyond(ls, side, shape, b)
    ensures forall i :: 0 <= i < |Groups(ls, side, shape)| ==> Beyond(side, Groups(ls, side, shape)[i].px, b)
    decreases |ls|
  {
    if ls != [] {
      var b0 := Bucket(ls[0].px, side, shape);
      OutIsWithin(ls[1..], b0, side, shape, b);
      GroupsLieBeyond(OutOfBucket(ls[1..], b0, side, shape), side, shape, b);
    }
  }

  lemma {:induction false} OutIsWithin(ls: seq<L2Level>, b0: Px, side: Side, shape: Shape, b: Px)
    requires ValidShape(shape) && BucketsBeyond(ls, side, shape, b)
    ensures BucketsBeyond(OutOfBucket(ls, b0, side, shape), side, shape, b)
  {
    if ls != [] {
      OutIsWithin(ls[1..], b0, side, shape, b);
      var later := OutOfBucket(ls[1..], b0, side, shape);
      assert ([ls[0]] + later)[1..] == later && [] + later == later;
    }
  }

  lemma {:induction false} AllBucketsBeyond(ls: seq<L2Level>, side: Side, shape: Shape, p0: Px)
    requires ValidShape(shape) && forall i :: 0 <= i < |ls| ==>
               Beyond(side, ls[i].px, p0) && Bucket(ls[i].px, side, shape) != Bucket(p0, side, shape)
    ensures BucketsBeyond(ls, side, shape, Bucket(p0, side, shape))
  {
    if ls != [] {
      BucketIsDecidedByPrice(ls[0].px, p0, side, shape);
      AllBucketsBeyond(ls[1..], side, shape, p0);
    }
  }

  /** Bucket prices are distinct and run strictly away from the touch. */
  lemma {:induction false} GroupsAreSorted(ls: seq<L2Level>, side: Side, shape: Shape)
    requires ValidShape(shape) && SortedLevels(side, ls)
    ensures SortedLevels(side, Groups(ls, side, shape))
    decreases |ls|
  {
    if ls != [] {
      var b := Bucket(ls[0].px, side, shape);
      var rest := OutOfBucket(ls[1..], b, side, shape);
      OutKeepsOrder(ls[1..], b, side, shape, ls[0].px);
      AllBucketsBeyond(rest, side, shape, ls[0].px);
      GroupsLieBeyond(rest, side, shape, b);
      GroupsAreSorted(rest, side, shape);
    }
  }

  lemma {:induction false} SplitConserves(ls: seq<L2Level>, b: Px, side: Side, shape: Shape)
    requires ValidShape(shape)
    ensures var mine, others := InBucket(ls, b, side, shape), OutOfBucket(ls, b, side, shape);
            SumOf(mine) + SumOf(others) == SumOf(ls) && CountOf(mine) + CountOf(others) == CountOf(ls)
  {
    if ls != [] {
      SplitConserves(ls[1..], b, side, shape);
      var mine, others := InBucket(ls[1..], b, side, shape), OutOfBucket(ls[1..], b, side, shape);
      SumCons(ls[0], mine);
      SumCons(ls[0], others);
      assert [] + mine == mine && [] + others == others;
    }
  }

  /** Grouping loses no order, and no size unless the side outgrows 64 bits. */
  lemma {:induction false} GroupsConserve(ls: seq<L2Level>, side: Side, shape: Shape)
    requires ValidShape(shape)
    ensures CountOf(Groups(ls, side, shape)) == CountOf(ls)
    ensures SumOf(ls) <= U64_MAX ==> SumOf(Groups(ls, side, shape)) == SumOf(ls)
    decreases |ls|
  {
    if ls != [] {
      var b := Bucket(ls[0].px, side, shape);
      var mine, rest := InBucket(ls, b, side, shape), OutOfBucket(ls[1..], b, side, shape);
      SplitConserves(ls[1..], b, side, shape);
      SumCons(ls[0], InBucket(ls[1..], b, side, shape));
      GroupsConserve(rest, side, shape);
      SumCons(Total(b, mine), Groups(rest, side, shape));
    }
  }

  // ----- L2 snapshots of a book -----

  datatype L2Snapshot = L2Snapshot(bids: seq<L2Level>, asks: seq<L2Level>)

  /** The raw levels at these prices: price, aggregate and queue length, as each level keeps them. */
  function RawLevels(levels: map<Px, Level>, keys: seq<Px>): seq<L2Level> {
    if keys == [] then []
    else
      (if keys[0] in levels then [L2Level(keys[0], levels[keys[0]].total, |levels[keys[0]].queue|)] else [])
      + RawLevels(levels, keys[1..])
  }

  function L2Side(b: Book, side: Side, cap: Option<nat>, shape: Shape): seq<L2Level>
    requires ValidShape(shape)
  {
    Take(Groups(RawLevels(LevelsOf(b, side), BestFirst(side, LevelsOf(b, side).Keys)), side, shape), cap)
  }

  function ToL2Snapshot(b: Book, cap: Option<nat>, shape: Shape): L2Snapshot
    requires ValidShape(shape)
  {
    L2Snapshot(L2Side(b, Bid, cap, shape), L2Side(b, Ask, cap, shape))
  }

  lemma {:induction false} RawIsSorted(levels: map<Px, Level>, side: Side, keys: seq<Px>)
    requires Sorted(side, keys)
    ensures SortedLevels(side, RawLevels(levels, keys))
    ensures forall i :: 0 <= i < |RawLevels(levels, keys)| ==> RawLevels(levels, keys)[i].px in keys
  {
    if keys != [] {
      RawIsSorted(levels, side, keys[1..]);
    }
  }

  /** An L2 side never shows a price twice, and runs from the touch outwards. */
  lemma L2SideIsSorted(b: Book, side: Side, cap: Option<nat>, shape: Shape)
    requires ValidShape(shape)
    ensures SortedLevels(side, L2Side(b, side, cap, shape))
  {
    var keys := BestFirst(side, LevelsOf(b, side).Keys);
    RawIsSorted(LevelsOf(b, side), side, keys);
    GroupsAreSorted(RawLevels(LevelsOf(b, side), keys), side, shape);
  }
}
