/**
 The L2 side of the listener: which coins are dirty, the incremental cache of aggregated
 snapshots, and the flushes broadcast from it; then the whole path from events applied to
 the book to the ladder a subscriber holds.
 */
module L2Feed {
  import opened Types
  import opened BookCore
  import opened MultiBook
  import opened Pairing
  import opened Buckets
  import opened Levels
  import opened L2Levels
  import opened L2View
  import opened L2Diff

  const MAX_LEVELS: nat := 1000
  const L2_BACKFILL_COINS_PER_FLUSH: nat := 32
  const BASE_SHAPE: VShape := Shape(None, None)

  /** Every subscribed shape, and the raw base always, built from scratch. */
  function FreshVariants(b: Book, active: set<VShape>): Variants {
    map shape | shape in active + {BASE_SHAPE} :: ToL2Snapshot(b, Some(MAX_LEVELS), shape)
  }

  // ----- the incremental rebuild -----

  /** Coins to backfill: the first few present coins that are neither cached nor dirty. */
  function Backfill(order: seq<Coin>, cache: map<Coin, Variants>, changed: set<Coin>, room: nat): (r: set<Coin>)
    ensures forall c :: c in r ==> c in order && c !in cache && c !in changed
  {
    if order == [] || room == 0 then {}
    else if Missing(order[0], cache, changed) then {order[0]} + Backfill(order[1..], cache, changed, room - 1)
    else Backfill(order[1..], cache, changed, room)
  }

  /** Cache entries of coins that still have a book. */
  function Evicted(cache: map<Coin, Variants>, books: Books): map<Coin, Variants> {
    map c | c in cache && c in books :: cache[c]
  }

  function ToCompute(books: Books, order: seq<Coin>, changed: set<Coin>, cache: map<Coin, Variants>): set<Coin> {
    (set c | c in changed && c in books) + Backfill(order, Evicted(cache, books), changed, L2_BACKFILL_COINS_PER_FLUSH)
  }

  function Rebuild(books: Books, order: seq<Coin>, changed: set<Coin>, active: set<VShape>, cache: map<Coin, Variants>): map<Coin, Variants>
    requires forall c :: c in order ==> c in books
  {
    Evicted(cache, books) + map c | c in ToCompute(books, order, changed, cache) :: FreshVariants(books[c], active)
  }

  /** Rebuilt coins, and dirty coins whose book is gone. */
  function Recomputed(books: Books, order: seq<Coin>, changed: set<Coin>, cache: map<Coin, Variants>): set<Coin> {
    ToCompute(books, order, changed, cache) + (set c | c in changed && c !in books)
  }

  predicate NoRepeats(order: seq<Coin>) {
    order != [] ==> order[0] !in order[1..] && NoRepeats(order[1..])
  }

  /** A missing coin is backfilled unless the cap was reached by others, so a few flushes cover every coin. */
  lemma {:induction false} BackfillIsCapped(order: seq<Coin>, cache: map<Coin, Variants>, changed: set<Coin>, room: nat, coin: Coin)
    requires NoRepeats(order) && coin in order && coin !in cache && coin !in changed
    ensures var r := Backfill(order, cache, changed, room); |r| <= room && (coin in r || |r| == room)
  {
    BackfillFits(order, cache, changed, room);
    if room > 0 {
      var first, taken := order[0], order[0] !in cache && order[0] !in changed;
      if coin != first {
        assert coin in order[1..];
        BackfillIsCapped(order[1..], cache, changed, if taken then room - 1 else room, coin);
        if taken {
          OneMore(first, Backfill(order[1..], cache, changed, room - 1));
        }
      }
    }
  }

  lemma {:induction false} BackfillFits(order: seq<Coin>, cache: map<Coin, Variants>, changed: set<Coin>, room: nat)
    requires NoRepeats(order)
    ensures |Backfill(order, cache, changed, room)| <= room
  {
    if order != [] && room > 0 {
      var rest := Backfill(order[1..], cache, changed, if Missing(order[0], cache, changed) then room - 1 else room);
      BackfillFits(order[1..], cache, changed, if Missing(order[0], cache, changed) then room - 1 else room);
      AtMostOneMore(order[0], rest);
      assert Backfill(order, cache, changed, room) == if Missing(order[0], cache, changed) then {order[0]} + rest else rest;
    }
  }

  predicate Missing(c: Coin, cache: map<Coin, Variants>, changed: set<Coin>) {
    c !in cache && c !in changed
  }

  lemma AtMostOneMore(c: Coin, s: set<Coin>)
    ensures |{c} + s| <= 1 + |s|
  {
    if c in s {
      assert {c} + s == s;
    } else {
      OneMore(c, s);
    }
  }

  lemma OneMore(c: Coin, s: set<Coin>)
    requires c !in s
    ensures |{c} + s| == 1 + |s|
  {
  }

  method ChooseBackfill(order: seq<Coin>, cache: map<Coin, Variants>, changed: set<Coin>) returns (chosen: set<Coin>)
    ensures chosen == Backfill(order, cache, changed, L2_BACKFILL_COINS_PER_FLUSH)
  {
    chosen := {};
    var todo, room := order, L2_BACKFILL_COINS_PER_FLUSH;
    while todo != [] && room > 0
      invariant chosen + Backfill(todo, cache, changed, room) == Backfill(order, cache, changed, L2_BACKFILL_COINS_PER_FLUSH)
      decreases |todo|
    {
      if todo[0] !in cache && todo[0] !in changed {
        chosen := chosen + {todo[0]};
        room := room - 1;
      }
      todo := todo[1..];
    }
  }

  /** compute_l2_snapshots_incremental, in its own steps: evict, choose, rebuild, report. */
  method ComputeIncremental(books: Books, order: seq<Coin>, changed: set<Coin>, active: set<VShape>, cache: map<Coin, Variants>)
    returns (cache': map<Coin, Variants>, recomputed: set<Coin>, coinSetChanged: bool)
    requires Lists(order, books)
    ensures cache' == Rebuild(books, order, changed, active, cache)
    ensures recomputed == Recomputed(books, order, changed, cache)
    ensures coinSetChanged <==> cache'.Keys != cache.Keys
  {
    var kept := Evicted(cache, books);
    var backfill := ChooseBackfill(order, kept, changed);
    var toCompute := (set c | c in changed && c in books) + backfill;
    coinSetChanged := kept.Keys != cache.Keys || exists c :: c in toCompute && c !in kept;
    cache' := kept + map c | c in toCompute :: FreshVariants(books[c], active);
    recomputed := toCompute + (set c | c in changed && c !in books);
    KeysAfterRebuild(books, order, changed, active, cache);
  }

  lemma KeysAfterRebuild(books: Books, order: seq<Coin>, changed: set<Coin>, active: set<VShape>, cache: map<Coin, Variants>)
    requires Lists(order, books)
    ensures var kept, todo := Evicted(cache, books), ToCompute(books, order, changed, cache);
            Rebuild(books, order, changed, active, cache).Keys != cache.Keys
            <==> kept.Keys != cache.Keys || exists c :: c in todo && c !in kept
  {
    var kept, todo := Evicted(cache, books), ToCompute(books, order, changed, cache);
    var keys := Rebuild(books, order, changed, active, cache).Keys;
    assert keys == kept.Keys + todo;
    if c :| c in todo && c !in kept {
      assert c in keys && c !in cache.Keys;
    } else if kept.Keys != cache.Keys {
      var c :| c in cache.Keys && c !in kept.Keys;
      assert c !in keys;
    } else {
      assert keys == cache.Keys;
    }
  }

  // ----- the listener's L2 state -----

  datatype Feed = Feed(state: State, dirty: set<Coin>, cache: map<Coin, Variants>, lastActive: set<VShape>)

  /** A batch applied to the live book marks the coins it reports. */
  function FeedApply(fd: Feed, steps: seq<Step>): Feed {
    var o := ApplyAll(fd.state, steps);
    fd.(state := o.state, dirty := fd.dirty + o.changed)
  }

  function FeedCompact(fd: Feed): Feed {
    fd.(state := fd.state.(books := CompactAll(fd.state.books)))
  }

  /** A snapshot install replaces the book and forgets everything derived from the old one. */
  function FeedInstall(fd: Feed, state: State): Feed {
    Feed(state, {}, map[], {})
  }

  /** The cache a flush starts from: emptied when the wanted shapes have changed. */
  function CacheFor(fd: Feed, active: set<VShape>): map<Coin, Variants> {
    if active != fd.lastActive then map[] else fd.cache
  }

  predicate Lists(order: seq<Coin>, books: Books) {
    (forall c :: c in order ==> c in books) && (forall c :: c in books ==> c in order)
  }

  /** A flush that is due, has receivers and has shapes to build. */
  function FeedFlush(fd: Feed, order: seq<Coin>, active: set<VShape>): (Feed, Flush)
    requires Lists(order, fd.state.books)
  {
    var cache := CacheFor(fd, active);
    var cache' := Rebuild(fd.state.books, order, fd.dirty, active, cache);
    (Feed(fd.state, {}, cache', active),
     Flush(cache', map c | c in cache && c in fd.dirty :: cache[c], Recomputed(fd.state.books, order, fd.dirty, cache), fd.state.height))
  }

  // ----- the cache agrees with recomputation -----

  ghost predicate FreshAt(fd: Feed, coin: Coin) {
    coin in fd.cache && coin in fd.state.books && coin !in fd.dirty ==>
      fd.cache[coin] == FreshVariants(fd.state.books[coin], fd.lastActive)
  }

  ghost predicate FeedInv(fd: Feed) {
    && (forall coin :: FreshAt(fd, coin))
    && (forall coin :: coin in fd.cache ==> fd.cache[coin].Keys == fd.lastActive + {BASE_SHAPE})
  }

  /** No step of the batch is rejected, or none in front of the first rejected one changed a book. */
  predicate Reported(s: State, steps: seq<Step>) {
    Accepted(s, steps) || BeforeReject(s, steps).books == s.books
  }

  lemma ApplyKeepsFeedInv(fd: Feed, steps: seq<Step>)
    requires FeedInv(fd) && Reported(fd.state, steps)
    ensures FeedInv(FeedApply(fd, steps))
  {
    ReportsAllIff(fd.state, steps);
    forall coin ensures FreshAt(FeedApply(fd, steps), coin) {
      assert FreshAt(fd, coin);
      assert coin !in ApplyAll(fd.state, steps).changed ==> SameBook(fd.state.books, ApplyAll(fd.state, steps).state.books, coin);
    }
  }

  lemma CompactKeepsFeedInv(fd: Feed)
    requires FeedInv(fd)
    ensures FeedInv(FeedCompact(fd))
  {
    forall coin ensures FreshAt(FeedCompact(fd), coin) {
      assert FreshAt(fd, coin);
    }
  }

  /** After a flush every cached coin is a fresh build, whatever the cache held before. */
  lemma FlushRefreshes(fd: Feed, order: seq<Coin>, active: set<VShape>)
    requires FeedInv(fd) && Lists(order, fd.state.books)
    ensures var fd' := FeedFlush(fd, order, active).0;
            && FeedInv(fd')
            && fd'.dirty == {} && fd'.lastActive == active && fd'.state == fd.state
            && (forall coin :: coin in fd'.cache ==> coin in fd.state.books && fd'.cache[coin] == FreshVariants(fd.state.books[coin], active))
            && (forall coin :: coin in fd.dirty && coin in fd.state.books ==> coin in fd'.cache)
  {
    var fd' := FeedFlush(fd, order, active).0;
    forall coin | coin in fd'.cache
      ensures coin in fd.state.books && fd'.cache[coin] == FreshVariants(fd.state.books[coin], active)
    {
      RebuiltIsFresh(fd, order, active, coin);
    }
    assert forall coin :: coin in fd'.cache ==> fd'.cache[coin].Keys == active + {BASE_SHAPE};
  }

  /**
   What a flush says was there before: nothing when the wanted shapes have changed, and else exactly the
   dirty coins that were cached, as they were; a clean coin that still has a book keeps its entry.
   */
  lemma FlushRemembers(fd: Feed, order: seq<Coin>, active: set<VShape>, coin: Coin)
    requires Lists(order, fd.state.books)
    ensures var (fd', f) := FeedFlush(fd, order, active);
            && (active != fd.lastActive ==> f.previous == map[])
            && (active == fd.lastActive ==>
                  && (coin in f.previous <==> coin in fd.cache && coin in fd.dirty)
                  && (coin in f.previous ==> f.previous[coin] == fd.cache[coin])
                  && (coin in fd.cache && coin !in fd.dirty && coin in fd.state.books ==>
                        coin !in f.dirty && coin in f.snapshot && f.snapshot[coin] == fd.cache[coin])
                  && (coin in fd.cache && coin !in fd.state.books ==> coin !in f.snapshot))
            && f.snapshot == fd'.cache && f.height == fd.state.height
  {
  }

  /** At most 32 coins are added to the cache that no batch has changed, and fewer only when none is missing any more. */
  lemma FlushBackfills(fd: Feed, order: seq<Coin>, active: set<VShape>)
    requires Lists(order, fd.state.books) && NoRepeats(order)
    ensures var f := FeedFlush(fd, order, active).1;
            var added := set c | c in f.snapshot && c !in CacheFor(fd, active) && c !in fd.dirty;
            && |added| <= 32
            && (|added| < 32 ==> forall c :: c in fd.state.books ==> c in f.snapshot)
  {
    var books := fd.state.books;
    var f, kept := FeedFlush(fd, order, active).1, Evicted(CacheFor(fd, active), books);
    var added := set c | c in f.snapshot && c !in CacheFor(fd, active) && c !in fd.dirty;
    AddedAreBackfilled(fd, order, active, f, kept, added);
    BackfillFits(order, kept, fd.dirty, 32);
    forall c | c in books && |added| < 32
      ensures c in f.snapshot
    {
      if c !in kept && c !in fd.dirty {
        BackfillIsCapped(order, kept, fd.dirty, 32, c);
      }
    }
  }

  lemma AddedAreBackfilled(fd: Feed, order: seq<Coin>, active: set<VShape>, f: Flush, kept: map<Coin, Variants>, added: set<Coin>)
    requires Lists(order, fd.state.books) && f == FeedFlush(fd, order, active).1 && kept == Evicted(CacheFor(fd, active), fd.state.books)
    requires added == set c | c in f.snapshot && c !in CacheFor(fd, active) && c !in fd.dirty
    ensures added == Backfill(order, kept, fd.dirty, 32)
    ensures f.snapshot.Keys == kept.Keys + ((set c | c in fd.dirty && c in fd.state.books) + added)
  {
  }

  /** Both sides of a view are the top of a book's sides. */
  ghost predicate ViewOf(b: Book, shape: Shape, cap: nat, view: L2Snapshot) {
    IsTopOf(b.bids, Bid, shape, cap, view.bids) && IsTopOf(b.asks, Ask, shape, cap, view.asks)
  }

  /** After a flush the cache holds, for every wanted shape and the raw one, the first 1000 entries of each side of the live book. */
  lemma FlushShowsTheBook(fd: Feed, order: seq<Coin>, active: set<VShape>, coin: Coin, shape: VShape)
    requires FeedInv(fd) && Lists(order, fd.state.books)
    requires coin in FeedFlush(fd, order, active).0.cache && (shape in active || shape == Shape(None, None))
    ensures var cached := FeedFlush(fd, order, active).0.cache[coin];
            coin in fd.state.books && shape in cached && ViewOf(fd.state.books[coin], shape, 1000, cached[shape])
  {
    FlushRefreshes(fd, order, active);
    SnapshotIsTop(fd.state.books[coin], 1000, shape);
  }

  lemma RebuiltIsFresh(fd: Feed, order: seq<Coin>, active: set<VShape>, coin: Coin)
    requires FeedInv(fd) && Lists(order, fd.state.books)
    requires coin in Rebuild(fd.state.books, order, fd.dirty, active, CacheFor(fd, active))
    ensures coin in fd.state.books
    ensures Rebuild(fd.state.books, order, fd.dirty, active, CacheFor(fd, active))[coin] == FreshVariants(fd.state.books[coin], active)
  {
    var cache := CacheFor(fd, active);
    if coin !in ToCompute(fd.state.books, order, fd.dirty, cache) {
      assert coin in Evicted(cache, fd.state.books);
      assert coin in fd.cache && active == fd.lastActive && coin !in fd.dirty;
      assert FreshAt(fd, coin);
    }
  }

  /** Consecutive broadcasts are linked as the l2Diff channel needs them. */
  lemma FlushFollows(fd: Feed, order: seq<Coin>, active: set<VShape>, last: map<Coin, Variants>)
    requires FeedInv(fd) && Lists(order, fd.state.books)
    requires forall c :: c in fd.cache ==> c in last && last[c] == fd.cache[c]
    ensures Follows(last, FeedFlush(fd, order, active).1)
  {
    FlushRefreshes(fd, order, active);
  }

  // ----- the whole path, over every run -----

  datatype SysStep =
    | ApplyBatch(steps: seq<Step>)
    | CompactBooks
    | Install(state: State)
    | FlushL2(order: seq<Coin>, active: set<VShape>, delivered: bool)
    | Subscribe(sub: Sub)
    | Unsubscribe(sub: Sub)

  /** The listener, the last broadcast snapshots, and one connection with the client of each of its subscriptions. */
  datatype Sys = Sys(feed: Feed, last: map<Coin, Variants>, conn: Conn, clients: map<Sub, Client>)

  /** Steps as the hypotheses allow them: batches report what they change; a flush sees the present coins and has shapes to build. */
  predicate Allowed(sys: Sys, step: SysStep) {
    match step
    case ApplyBatch(steps) => Reported(sys.feed.state, steps)
    case FlushL2(order, active, _) => Lists(order, sys.feed.state.books) && active != {}
    case _ => true
  }

  /** Every client applies the frame it got, if it got one. */
  function AllReceive(clients: map<Sub, Client>, frames: map<Sub, Frame>): map<Sub, Client> {
    map s | s in clients :: ReceiveFrom(clients[s], frames, s)
  }

  function SysNext(sys: Sys, step: SysStep): Sys
    requires Allowed(sys, step)
  {
    match step
    case ApplyBatch(steps) => sys.(feed := FeedApply(sys.feed, steps))
    case CompactBooks => sys.(feed := FeedCompact(sys.feed))
    case Install(state) => sys.(feed := FeedInstall(sys.feed, state))
    case FlushL2(order, active, delivered) =>
      var (feed, flush) := FeedFlush(sys.feed, order, active);
      // a flush the connection never received makes its next one a full one
      if delivered then Sys(feed, flush.snapshot, ConnFlush(sys.conn, flush), AllReceive(sys.clients, ConnFrames(sys.conn, flush)))
      else Sys(feed, flush.snapshot, sys.conn.(forceFull := true), sys.clients)
    case Subscribe(sub) =>
      if sub in sys.conn.subs then sys
      else sys.(conn := ConnSubscribe(sys.conn, sub), clients := sys.clients[sub := NEW_CLIENT])
    case Unsubscribe(sub) => sys.(conn := ConnUnsubscribe(sys.conn, sub), clients := sys.clients - {sub})
  }

  predicate AllAllowed(sys: Sys, steps: seq<SysStep>)
    decreases |steps|
  {
    steps != [] ==> Allowed(sys, steps[0]) && AllAllowed(SysNext(sys, steps[0]), steps[1..])
  }

  function SysRun(sys: Sys, steps: seq<SysStep>): Sys
    requires AllAllowed(sys, steps)
    decreases |steps|
  {
    if steps == [] then sys else SysRun(SysNext(sys, steps[0]), steps[1..])
  }

  ghost predicate SubInSync(sys: Sys, sub: Sub) {
    sub in sys.clients ==> InSync(sub, SessionOf(sys.conn, sub, sys.clients[sub]), sys.last)
  }

  ghost predicate SysInv(sys: Sys) {
    && FeedInv(sys.feed)
    && (forall c :: c in sys.feed.cache ==> c in sys.last && sys.last[c] == sys.feed.cache[c])
    && sys.clients.Keys == sys.conn.subs && sys.conn.served.Keys <= sys.conn.subs
    && (forall sub :: SubInSync(sys, sub))
  }

  lemma FlushKeepsSubInSync(sys: Sys, order: seq<Coin>, active: set<VShape>, delivered: bool, sub: Sub)
    requires SysInv(sys) && Allowed(sys, FlushL2(order, active, delivered))
    ensures SubInSync(SysNext(sys, FlushL2(order, active, delivered)), sub)
  {
    var flush := FeedFlush(sys.feed, order, active).1;
    if sub in sys.clients {
      assert SubInSync(sys, sub);
      FlushFollows(sys.feed, order, active, sys.last);
      if delivered {
        ConnFollowsDeliver(sys.conn, sub, sys.clients[sub], flush);
        DeliverKeepsSync(sub, SessionOf(sys.conn, sub, sys.clients[sub]), sys.last, flush);
      }
    }
  }

  lemma FlushKeepsSysInv(sys: Sys, order: seq<Coin>, active: set<VShape>, delivered: bool)
    requires SysInv(sys) && Allowed(sys, FlushL2(order, active, delivered))
    ensures SysInv(SysNext(sys, FlushL2(order, active, delivered)))
  {
    FlushRefreshes(sys.feed, order, active);
    forall sub
      ensures SubInSync(SysNext(sys, FlushL2(order, active, delivered)), sub)
    {
      FlushKeepsSubInSync(sys, order, active, delivered, sub);
    }
  }

  /** Changing the listener alone, its broadcasts aside, keeps every subscription in sync. */
  lemma FeedKeepsSubs(sys: Sys, feed: Feed)
    requires SysInv(sys) && FeedInv(feed) && forall c :: c in feed.cache ==> c in sys.feed.cache && feed.cache[c] == sys.feed.cache[c]
    ensures SysInv(sys.(feed := feed))
  {
    forall sub
      ensures SubInSync(sys.(feed := feed), sub)
    {
      assert SubInSync(sys, sub);
    }
  }

  lemma SubscribeKeepsSysInv(sys: Sys, sub: Sub)
    requires SysInv(sys)
    ensures SysInv(SysNext(sys, Subscribe(sub)))
  {
    var sys' := SysNext(sys, Subscribe(sub));
    assert sys'.clients.Keys == sys'.conn.subs;
    forall s
      ensures SubInSync(sys', s)
    {
      assert SubInSync(sys, s);
    }
  }

  lemma UnsubscribeKeepsSysInv(sys: Sys, sub: Sub)
    requires SysInv(sys)
    ensures SysInv(SysNext(sys, Unsubscribe(sub)))
  {
    var sys' := SysNext(sys, Unsubscribe(sub));
    assert sys'.clients.Keys == sys'.conn.subs;
    forall s
      ensures SubInSync(sys', s)
    {
      assert SubInSync(sys, s);
    }
  }

  lemma StepKeepsSysInv(sys: Sys, step: SysStep)
    requires SysInv(sys) && Allowed(sys, step)
    ensures SysInv(SysNext(sys, step))
  {
    match step
    case ApplyBatch(steps) =>
      ApplyKeepsFeedInv(sys.feed, steps);
      FeedKeepsSubs(sys, FeedApply(sys.feed, steps));
    case CompactBooks =>
      CompactKeepsFeedInv(sys.feed);
      FeedKeepsSubs(sys, FeedCompact(sys.feed));
    case Install(state) => FeedKeepsSubs(sys, FeedInstall(sys.feed, state));
    case FlushL2(order, active, delivered) => FlushKeepsSysInv(sys, order, active, delivered);
    case Subscribe(sub) => SubscribeKeepsSysInv(sys, sub);
    case Unsubscribe(sub) => UnsubscribeKeepsSysInv(sys, sub);
  }

  lemma {:induction false} RunKeepsSysInv(sys: Sys, steps: seq<SysStep>)
    requires SysInv(sys) && AllAllowed(sys, steps)
    ensures SysInv(SysRun(sys, steps))
    decreases |steps|
  {
    if steps != [] {
      StepKeepsSysInv(sys, steps[0]);
      RunKeepsSysInv(SysNext(sys, steps[0]), steps[1..]);
    }
  }

  /** A ladder has one price per entry of a view, with the entry's size and count. */
  ghost predicate LadderOf(ladder: Ladder, view: seq<L2Level>) {
    && (forall i :: 0 <= i < |view| ==> view[i].px in ladder && ladder[view[i].px] == (view[i].sz, view[i].n))
    && (forall p :: p in ladder ==> exists i :: 0 <= i < |view| && view[i].px == p)
  }

  ghost predicate LadderShows(ladder: Ladder, levels: map<Px, Level>, side: Side, shape: Shape, cap: nat) {
    exists view :: IsTopOf(levels, side, shape, cap, view) && LadderOf(ladder, view)
  }

  /** A client's two ladders are the top of the two sides of a book. */
  ghost predicate ClientShows(c: Client, b: Book, shape: Shape, depth: nat) {
    && LadderShows(c.bids, b.bids, Bid, shape, Min(depth, 1000))
    && LadderShows(c.asks, b.asks, Ask, shape, Min(depth, 1000))
  }

  lemma ShownLadder(levels: map<Px, Level>, side: Side, shape: VShape, depth: nat, view: seq<L2Level>)
    requires IsTopOf(levels, side, shape, 1000, view)
    ensures LadderShows(AsLadder(Take(view, Some(depth))), levels, side, shape, Min(depth, 1000))
  {
    var top := Take(view, Some(depth));
    TakeIsTop(levels, side, shape, 1000, view, depth);
    LadderHolds(top, side);
    forall p | p in AsLadder(top)
      ensures exists i :: 0 <= i < |top| && top[i].px == p
    {
      var i :| 0 <= i < |top| && Pxs(top)[i] == p;
      assert top[i].px == p;
    }
    assert LadderOf(AsLadder(top), top);
  }

  lemma ShownBook(c: Client, b: Book, shape: VShape, depth: nat)
    requires Shows(c, Top(ToL2Snapshot(b, Some(MAX_LEVELS), shape), depth))
    ensures ClientShows(c, b, shape, depth)
  {
    var view := ToL2Snapshot(b, Some(MAX_LEVELS), shape);
    SnapshotIsTop(b, 1000, shape);
    ShownLadder(b.bids, Bid, shape, depth, view.bids);
    ShownLadder(b.asks, Ask, shape, depth, view.asks);
  }

  /** A subscription's ladder is the top of the live book, whenever its session and the cache are up to date. */
  ghost predicate HoldsTheBook(sys: Sys, sub: Sub) {
    var fd := sys.feed;
    sub in sys.clients && sub in sys.conn.served && !sys.conn.forceFull
    && sub.coin in fd.cache && sub.coin in fd.state.books && sub.coin !in fd.dirty
    && (sub.shape in fd.lastActive || sub.shape == Shape(None, None))
    ==> ClientShows(sys.clients[sub], fd.state.books[sub.coin], sub.shape, sub.depth)
  }

  lemma InvHoldsTheBook(sys: Sys, sub: Sub)
    requires SysInv(sys)
    ensures HoldsTheBook(sys, sub)
  {
    var fd := sys.feed;
    assert FreshAt(fd, sub.coin);
    assert SubInSync(sys, sub);
    if sub in sys.clients && sub.coin in fd.state.books
       && Shows(sys.clients[sub], Top(ToL2Snapshot(fd.state.books[sub.coin], Some(MAX_LEVELS), sub.shape), sub.depth)) {
      ShownBook(sys.clients[sub], fd.state.books[sub.coin], sub.shape, sub.depth);
    }
  }

  /** A server that has just started, with a connection that has just opened. */
  function SysStart(state: State): Sys {
    Sys(Feed(state, {}, map[], {}), map[], NEW_CONN, map[])
  }

  lemma StartIsInSync(state: State)
    ensures SysInv(SysStart(state))
  {
  }

  /**
   End to end: after any run, for every subscription of the connection, a client that has been served
   and missed nothing, on a coin that is cached, present and has not changed since the last flush,
   holds exactly the top of the live book.
   */
  lemma ClientHoldsTheBook(state: State, steps: seq<SysStep>, sub: Sub)
    requires AllAllowed(SysStart(state), steps)
    ensures HoldsTheBook(SysRun(SysStart(state), steps), sub)
  {
    StartIsInSync(state);
    RunKeepsSysInv(SysStart(state), steps);
    InvHoldsTheBook(SysRun(SysStart(state), steps), sub);
  }

  /**
   After any run, each update a flush sends names the height of the last frame its client applied, and
   whatever the flush sends, a client whose coin and shape it carries then shows the top of the live book.
   */
  lemma UpdatesChain(state: State, steps: seq<SysStep>, order: seq<Coin>, active: set<VShape>, sub: Sub)
    requires AllAllowed(SysStart(state), steps)
    requires var sys := SysRun(SysStart(state), steps); sub in sys.conn.subs && Allowed(sys, FlushL2(order, active, true))
    ensures Chains(SysRun(SysStart(state), steps), order, active, sub)
  {
    StartIsInSync(state);
    RunKeepsSysInv(SysStart(state), steps);
    FlushChains(SysRun(SysStart(state), steps), order, active, sub);
  }

  /** What a delivered flush does for one subscription. */
  ghost predicate Chains(sys: Sys, order: seq<Coin>, active: set<VShape>, sub: Sub)
    requires Allowed(sys, FlushL2(order, active, true))
  {
    var (fd, flush) := FeedFlush(sys.feed, order, active);
    var frame := ConnFrame(sys.conn, sub, flush);
    && sub in sys.clients
    && (frame.Some? && frame.value.UpdatesFrame? ==> sys.clients[sub].height == Some(frame.value.prevHeight))
    && (frame.Some? ==> frame.value.height == sys.feed.state.height)
    && (sub.coin in fd.cache && (sub.shape in active || sub.shape == Shape(None, None)) ==>
          && sub.coin in fd.state.books
          && ClientShows(ReceiveFrom(sys.clients[sub], ConnFrames(sys.conn, flush), sub), fd.state.books[sub.coin], sub.shape, sub.depth))
  }

  lemma FlushChains(sys: Sys, order: seq<Coin>, active: set<VShape>, sub: Sub)
    requires SysInv(sys) && sub in sys.conn.subs && Allowed(sys, FlushL2(order, active, true))
    ensures Chains(sys, order, active, sub)
  {
    var (fd, flush) := FeedFlush(sys.feed, order, active);
    assert sub in sys.clients && SubInSync(sys, sub);
    FlushRefreshes(sys.feed, order, active);
    FlushFollows(sys.feed, order, active, sys.last);
    ConnFollowsDeliver(sys.conn, sub, sys.clients[sub], flush);
    DeliverKeepsSync(sub, SessionOf(sys.conn, sub, sys.clients[sub]), sys.last, flush);
    if sub.coin in fd.cache && (sub.shape in active || sub.shape == Shape(None, None)) {
      ShownBook(ReceiveFrom(sys.clients[sub], ConnFrames(sys.conn, flush), sub), fd.state.books[sub.coin], sub.shape, sub.depth);
    }
  }
}
