/**
 The l2Diff channel: a subscription starts from a whole view and goes on with differences. A
 client that applies every frame holds the same ladder as the snapshot of the latest
 flush, across quiet coins, rebuilt caches and broadcast lag.
 */
module L2Diff {
  import opened Types
  import opened BookCore
  import opened Buckets
  import opened L2Levels

  /** What a client keeps per side: size and order count by price. */
  type Ladder = map<Px, (Sz, nat)>

  function AsLadder(ls: seq<L2Level>): Ladder {
    if ls == [] then map[]
    else AsLadder(ls[..|ls| - 1])[ls[|ls| - 1].px := (ls[|ls| - 1].sz, ls[|ls| - 1].n)]
  }

  datatype SideDiff = SideDiff(upd: seq<L2Level>, del: set<Px>)

  /** The client's half: overwrite the updated prices, then drop the deleted ones. */
  function ApplySide(m: Ladder, d: SideDiff): Ladder {
    Overwrite(m, d.upd) - d.del
  }

  function Overwrite(m: Ladder, upd: seq<L2Level>): Ladder {
    if upd == [] then m
    else Overwrite(m, upd[..|upd| - 1])[upd[|upd| - 1].px := (upd[|upd| - 1].sz, upd[|upd| - 1].n)]
  }

  predicate IsEmptyDiff(d: SideDiff) {
    d.upd == [] && d.del == {}
  }

  /** The levels of `new` that differ from `prev`, and what is left of `prev` once `new` has claimed its prices. */
  function Claim(prev: Ladder, new': seq<L2Level>): (Ladder, seq<L2Level>) {
    if new' == [] then (prev, [])
    else
      var l := new'[|new'| - 1];
      var (left, upd) := Claim(prev, new'[..|new'| - 1]);
      (left - {l.px}, if l.px in left && left[l.px] == (l.sz, l.n) then upd else upd + [l])
  }

  function Between(old': seq<L2Level>, new': seq<L2Level>): SideDiff {
    var (left, upd) := Claim(AsLadder(old'), new');
    SideDiff(upd, left.Keys)
  }

  /** L2SideDiff::between: fill a map from the old side, drain it with the new one. */
  method ComputeBetween(old': seq<L2Level>, new': seq<L2Level>) returns (d: SideDiff)
    ensures d == Between(old', new')
  {
    var prev: Ladder := map[];
    var i := 0;
    while i < |old'|
      invariant 0 <= i <= |old'| && prev == AsLadder(old'[..i])
    {
      assert old'[..i + 1][..i] == old'[..i];
      prev := prev[old'[i].px := (old'[i].sz, old'[i].n)];
      i := i + 1;
    }
    assert old'[..i] == old';
    var upd: seq<L2Level> := [];
    i := 0;
    while i < |new'|
      invariant 0 <= i <= |new'| && (prev, upd) == Claim(AsLadder(old'), new'[..i])
    {
      assert new'[..i + 1][..i] == new'[..i];
      var l := new'[i];
      if l.px !in prev || prev[l.px] != (l.sz, l.n) {
        upd := upd + [l];
      }
      prev := prev - {l.px};
      i := i + 1;
    }
    assert new'[..i] == new';
    d := SideDiff(upd, prev.Keys);
  }

  /** While claiming: what is left is old and untouched, and everything claimed is already right. */
  lemma {:induction false} ClaimRebuilds(prev: Ladder, new': seq<L2Level>)
    ensures var (left, upd) := Claim(prev, new');
            && (forall p :: p in left ==> p in prev && left[p] == prev[p] && p !in AsLadder(new'))
            && (forall p :: p in prev && p !in left ==> p in AsLadder(new'))
            && (forall p :: p in AsLadder(new') ==> p in Overwrite(prev, upd) && Overwrite(prev, upd)[p] == AsLadder(new')[p])
            && (forall p :: p in Overwrite(prev, upd) && p !in AsLadder(new') ==> p in left)
  {
    if new' != [] {
      ClaimRebuilds(prev, new'[..|new'| - 1]);
      var l := new'[|new'| - 1];
      var (left, upd) := Claim(prev, new'[..|new'| - 1]);
      if l.px in left && left[l.px] == (l.sz, l.n) {
        assert l.px !in AsLadder(new'[..|new'| - 1]);
        UntouchedByUpdates(prev, new'[..|new'| - 1], l.px);
      } else {
        assert (upd + [l])[..|upd + [l]| - 1] == upd;
      }
    }
  }

  lemma {:induction false} UntouchedByUpdates(prev: Ladder, new': seq<L2Level>, p: Px)
    requires p in prev && p !in AsLadder(new')
    ensures var (left, upd) := Claim(prev, new'); p in Overwrite(prev, upd) && Overwrite(prev, upd)[p] == prev[p]
  {
    if new' != [] {
      var l := new'[|new'| - 1];
      assert l.px in AsLadder(new');
      UntouchedByUpdates(prev, new'[..|new'| - 1], p);
      var (left, upd) := Claim(prev, new'[..|new'| - 1]);
      assert (upd + [l])[..|upd + [l]| - 1] == upd;
    }
  }

  /** Applying the diff to the old ladder gives the new one, whatever the two sides are. */
  lemma DiffRebuilds(old': seq<L2Level>, new': seq<L2Level>)
    ensures ApplySide(AsLadder(old'), Between(old', new')) == AsLadder(new')
  {
    ClaimRebuilds(AsLadder(old'), new');
  }

  // ----- a ladder and its sorted side are the same thing -----

  function Pxs(ls: seq<L2Level>): (ps: seq<Px>)
    ensures |ps| == |ls| && forall i :: 0 <= i < |ls| ==> ps[i] == ls[i].px
  {
    if ls == [] then [] else Pxs(ls[..|ls| - 1]) + [ls[|ls| - 1].px]
  }

  lemma {:induction false} LadderHolds(ls: seq<L2Level>, side: Side)
    requires SortedLevels(side, ls)
    ensures forall p :: p in AsLadder(ls) <==> p in Pxs(ls)
    ensures forall i :: 0 <= i < |ls| ==> ls[i].px in AsLadder(ls) && AsLadder(ls)[ls[i].px] == (ls[i].sz, ls[i].n)
  {
    if ls != [] {
      var before := ls[..|ls| - 1];
      LadderHolds(before, side);
      forall i | 0 <= i < |ls| ensures ls[i].px in AsLadder(ls) && AsLadder(ls)[ls[i].px] == (ls[i].sz, ls[i].n) {
        if i < |before| {
          assert before[i] == ls[i] && Beyond(side, ls[|ls| - 1].px, ls[i].px);
        }
      }
    }
  }

  /** Sorting a ladder by price gives back the side it was made from. */
  lemma LadderDeterminesSide(a: seq<L2Level>, b: seq<L2Level>, side: Side)
    requires SortedLevels(side, a) && SortedLevels(side, b) && AsLadder(a) == AsLadder(b)
    ensures a == b
  {
    LadderHolds(a, side);
    LadderHolds(b, side);
    SortedIsUnique(side, Pxs(a), Pxs(b));
    forall i | 0 <= i < |a| ensures a[i] == b[i] {
      assert a[i].px == Pxs(a)[i] == Pxs(b)[i] == b[i].px;
      assert AsLadder(a)[a[i].px] == (a[i].sz, a[i].n) && AsLadder(b)[b[i].px] == (b[i].sz, b[i].n);
    }
  }

  // ----- a diff says no more than it has to -----

  lemma {:induction false} ClaimIs(prev: Ladder, new': seq<L2Level>, side: Side)
    requires SortedLevels(side, new')
    ensures var (left, upd) := Claim(prev, new');
            && (forall p :: p in left <==> p in prev && p !in Pxs(new'))
            && (forall p :: p in left ==> left[p] == prev[p])
            && (forall l :: l in upd <==> l in new' && !(l.px in prev && prev[l.px] == (l.sz, l.n)))
  {
    if new' != [] {
      var before, l := new'[..|new'| - 1], new'[|new'| - 1];
      ClaimIs(prev, before, side);
      forall i | 0 <= i < |before|
        ensures before[i].px != l.px
      {
        assert Beyond(side, new'[|new'| - 1].px, new'[i].px);
      }
      assert l.px !in Pxs(before);
      assert forall x :: x in new' <==> x in before || x == l;
      assert forall p :: p in Pxs(new') <==> p in Pxs(before) || p == l.px;
    }
  }

  lemma DiffNames(d: SideDiff)
    requires !IsEmptyDiff(d)
    ensures (exists l :: l in d.upd) || (exists p :: p in d.del)
  {
    if d.upd != [] {
      assert d.upd[0] in d.upd;
    }
  }

  /** A diff names exactly the new levels that the old side does not have as they are, and exactly the prices that are gone. */
  lemma BetweenIsMinimal(old': seq<L2Level>, new': seq<L2Level>, side: Side)
    requires SortedLevels(side, old') && SortedLevels(side, new')
    ensures forall l :: l in Between(old', new').upd <==> l in new' && l !in old'
    ensures forall p :: p in Between(old', new').del <==> p in Pxs(old') && p !in Pxs(new')
    ensures IsEmptyDiff(Between(old', new')) <==> old' == new'
  {
    ClaimIs(AsLadder(old'), new', side);
    LadderHolds(old', side);
    forall l: L2Level
      ensures (l.px in AsLadder(old') && AsLadder(old')[l.px] == (l.sz, l.n)) <==> l in old'
    {
      if l.px in AsLadder(old') {
        var i :| 0 <= i < |old'| && Pxs(old')[i] == l.px;
        assert old'[i].px == l.px;
      }
    }
    if IsEmptyDiff(Between(old', new')) {
      DiffRebuilds(old', new');
      EmptyDiffChangesNothing(AsLadder(old'), Between(old', new'));
      LadderDeterminesSide(old', new', side);
    } else {
      DiffNames(Between(old', new'));
    }
  }

  // ----- flushes and sessions -----

  type VShape = s: Shape | ValidShape(s) witness Shape(None, None)

  /** All aggregation variants of one coin. */
  type Variants = map<VShape, L2Snapshot>

  /** One flush as broadcast: all cached coins, what the rebuilt ones looked like before, and which were rebuilt. */
  datatype Flush = Flush(snapshot: map<Coin, Variants>, previous: map<Coin, Variants>, dirty: set<Coin>, height: nat)

  datatype Sub = Sub(coin: Coin, shape: VShape, depth: nat)

  datatype Frame =
    | SnapshotFrame(height: nat, levels: L2Snapshot)
    | UpdatesFrame(height: nat, prevHeight: nat, bids: SideDiff, asks: SideDiff)

  function Top(s: L2Snapshot, depth: nat): L2Snapshot {
    L2Snapshot(Take(s.bids, Some(depth)), Take(s.asks, Some(depth)))
  }

  /** The subscriber's view of a set of snapshots, if the coin and shape are there. */
  function Export(sub: Sub, src: map<Coin, Variants>): Option<L2Snapshot> {
    if sub.coin in src && sub.shape in src[sub.coin] then Some(Top(src[sub.coin][sub.shape], sub.depth)) else None
  }

  const EMPTY_L2 := L2Snapshot([], [])

  function OrEmpty(s: Option<L2Snapshot>): L2Snapshot {
    if s.Some? then s.value else EMPTY_L2
  }

  /** send_ws_data_from_l2_diff: the frame one flush owes a subscription last served at this height. */
  function FrameFor(sub: Sub, caughtUp: Option<nat>, forceFull: bool, f: Flush): Option<Frame> {
    if caughtUp.None? || forceFull || sub.coin !in f.previous then
      if caughtUp.Some? && !forceFull && sub.coin !in f.dirty then None
      else Some(SnapshotFrame(f.height, OrEmpty(Export(sub, f.snapshot))))
    else if sub.coin !in f.dirty then None
    else
      var was := Export(sub, f.previous);
      if was.None? then None
      else
        var now := OrEmpty(Export(sub, f.snapshot));
        var bids, asks := Between(was.value.bids, now.bids), Between(was.value.asks, now.asks);
        if IsEmptyDiff(bids) && IsEmptyDiff(asks) then None
        else Some(UpdatesFrame(f.height, caughtUp.value, bids, asks))
  }

  /** What the client holds, and the height of the last frame it applied. */
  datatype Client = Client(bids: Ladder, asks: Ladder, height: Option<nat>)

  const NEW_CLIENT := Client(map[], map[], None)

  function Receive(c: Client, frame: Frame): Client {
    match frame
    case SnapshotFrame(height, levels) => Client(AsLadder(levels.bids), AsLadder(levels.asks), Some(height))
    case UpdatesFrame(height, _, bids, asks) => Client(ApplySide(c.bids, bids), ApplySide(c.asks, asks), Some(height))
  }

  /** A connection's state for one subscription, and the client at the other end. */
  datatype Session = Session(lastHeight: Option<nat>, forceFull: bool, client: Client)

  function Deliver(sub: Sub, ses: Session, f: Flush): Session {
    var frame := FrameFor(sub, ses.lastHeight, ses.forceFull, f);
    if frame.None? then ses.(forceFull := false)
    else Session(Some(f.height), false, Receive(ses.client, frame.value))
  }

  predicate Shows(c: Client, s: L2Snapshot) {
    c.bids == AsLadder(s.bids) && c.asks == AsLadder(s.asks)
  }

  /** How a flush relates to the snapshots broadcast before it. */
  ghost predicate Follows(last: map<Coin, Variants>, f: Flush) {
    && (forall coin :: coin in f.previous ==> coin in last && f.previous[coin] == last[coin] && coin in f.dirty)
    && (forall coin :: coin in f.previous && coin in f.snapshot ==> f.previous[coin].Keys == f.snapshot[coin].Keys)
    && (forall coin :: coin in f.snapshot && coin !in f.dirty ==> coin in last && f.snapshot[coin] == last[coin])
  }

  /** A session that has been served and has missed nothing shows the subscriber's view of the last broadcast. */
  ghost predicate InSync(sub: Sub, ses: Session, last: map<Coin, Variants>) {
    && ses.client.height == ses.lastHeight
    && (ses.lastHeight.Some? && !ses.forceFull && Export(sub, last).Some? ==> Shows(ses.client, Export(sub, last).value))
  }

  /** Every delivered flush leaves the client showing exactly that flush, if it carries the coin and shape. */
  lemma DeliverKeepsSync(sub: Sub, ses: Session, last: map<Coin, Variants>, f: Flush)
    requires InSync(sub, ses, last) && Follows(last, f)
    ensures InSync(sub, Deliver(sub, ses, f), f.snapshot)
    ensures var now := Export(sub, f.snapshot);
            now.Some? ==> Deliver(sub, ses, f).lastHeight.Some? && Shows(Deliver(sub, ses, f).client, now.value)
    ensures var frame := FrameFor(sub, ses.lastHeight, ses.forceFull, f);
            frame.Some? && frame.value.UpdatesFrame? ==> ses.client.height == Some(frame.value.prevHeight)
  {
    if ses.lastHeight.Some? && !ses.forceFull && sub.coin in f.previous {
      var was := Export(sub, f.previous);
      if was.Some? {
        var now := OrEmpty(Export(sub, f.snapshot));
        DiffRebuilds(was.value.bids, now.bids);
        DiffRebuilds(was.value.asks, now.asks);
        EmptyDiffChangesNothing(ses.client.bids, Between(was.value.bids, now.bids));
        EmptyDiffChangesNothing(ses.client.asks, Between(was.value.asks, now.asks));
      }
    }
  }

  /** After a lag whatever was missed is made good: the next flush carries the whole view, and the client shows exactly it. */
  lemma LagIsMadeGood(sub: Sub, ses: Session, f: Flush)
    requires ses.forceFull
    ensures var frame, now := FrameFor(sub, ses.lastHeight, true, f), Export(sub, f.snapshot);
            && frame == Some(SnapshotFrame(f.height, OrEmpty(now)))
            && Shows(Deliver(sub, ses, f).client, OrEmpty(now))
            && InSync(sub, Deliver(sub, ses, f), f.snapshot)
  {
  }

  lemma EmptyDiffChangesNothing(m: Ladder, d: SideDiff)
    ensures IsEmptyDiff(d) ==> ApplySide(m, d) == m
  {
  }

  predicate SortedView(view: L2Snapshot) {
    SortedLevels(Bid, view.bids) && SortedLevels(Ask, view.asks)
  }

  /**
   Which frame a flush owes a subscription. New or lagging, it gets the whole view. Otherwise it gets
   nothing while its coin was not rebuilt, the whole view of a coin that was not there before, and the
   changes of one that was, or nothing when what it sees has not changed.
   */
  lemma FrameIs(sub: Sub, caughtUp: Option<nat>, forceFull: bool, f: Flush)
    requires forall view :: Export(sub, f.previous) == Some(view) || Export(sub, f.snapshot) == Some(view) ==> SortedView(view)
    requires forall coin :: coin in f.previous ==> coin in f.dirty
    ensures var frame, was, now := FrameFor(sub, caughtUp, forceFull, f), Export(sub, f.previous), OrEmpty(Export(sub, f.snapshot));
            if caughtUp.None? || forceFull then frame == Some(SnapshotFrame(f.height, now))
            else if sub.coin !in f.dirty then frame == None
            else if sub.coin !in f.previous then frame == Some(SnapshotFrame(f.height, now))
            else
              && (frame.Some? <==> was.Some? && was.value != now)
              && (frame.Some? ==> frame.value.UpdatesFrame? && frame.value.height == f.height && frame.value.prevHeight == caughtUp.value)
  {
    var was, now := Export(sub, f.previous), OrEmpty(Export(sub, f.snapshot));
    if was.Some? {
      BetweenIsMinimal(was.value.bids, now.bids, Bid);
      BetweenIsMinimal(was.value.asks, now.asks, Ask);
    }
  }

  // ----- a connection with all its subscriptions -----

  /** What a connection keeps: its subscriptions, the height each was last served at, and whether it has lagged. */
  datatype Conn = Conn(subs: set<Sub>, served: map<Sub, nat>, forceFull: bool)

  const NEW_CONN := Conn({}, map[], false)

  function Served(c: Conn, sub: Sub): Option<nat> {
    if sub in c.served then Some(c.served[sub]) else None
  }

  function ConnFrame(c: Conn, sub: Sub, f: Flush): Option<Frame> {
    FrameFor(sub, Served(c, sub), c.forceFull, f)
  }

  /** The frames one flush owes the connection's subscriptions. */
  function ConnFrames(c: Conn, f: Flush): map<Sub, Frame> {
    map s | s in c.subs && ConnFrame(c, s, f).Some? :: ConnFrame(c, s, f).value
  }

  /** Heights after these frames went out. */
  function ServedBy(served: map<Sub, nat>, frames: map<Sub, Frame>, h: nat): map<Sub, nat> {
    served + map s | s in frames :: h
  }

  function ConnFlush(c: Conn, f: Flush): Conn {
    Conn(c.subs, ServedBy(c.served, ConnFrames(c, f), f.height), false)
  }

  function ConnSubscribe(c: Conn, sub: Sub): Conn {
    c.(subs := c.subs + {sub})
  }

  function ConnUnsubscribe(c: Conn, sub: Sub): Conn {
    if sub in c.subs then c.(subs := c.subs - {sub}, served := c.served - {sub}) else c
  }

  /** One subscription of a connection, with the client at its other end. */
  function SessionOf(c: Conn, sub: Sub, client: Client): Session {
    Session(Served(c, sub), c.forceFull, client)
  }

  function ReceiveFrom(client: Client, frames: map<Sub, Frame>, sub: Sub): Client {
    if sub in frames then Receive(client, frames[sub]) else client
  }

  /** Each subscription of a connection is served as if it were alone. */
  lemma ConnFollowsDeliver(c: Conn, sub: Sub, client: Client, f: Flush)
    requires sub in c.subs
    ensures SessionOf(ConnFlush(c, f), sub, ReceiveFrom(client, ConnFrames(c, f), sub))
         == Deliver(sub, SessionOf(c, sub, client), f)
  {
  }

  // ----- the connection as an object -----

  class Connection {
    var subs: seq<Sub>
    var lastHeights: map<Sub, nat>
    var forceFull: bool

    ghost predicate Valid()
      reads this
    {
      forall i, j :: 0 <= i < j < |subs| ==> subs[i] != subs[j]
    }

    ghost function View(): Conn
      reads this
    {
      Conn((set s | s in subs), lastHeights, forceFull)
    }

    constructor ()
      ensures Valid() && View() == NEW_CONN
    {
      subs, lastHeights, forceFull := [], map[], false;
    }

    method OnSubscribe(sub: Sub) returns (inserted: bool)
      requires Valid()
      modifies this`subs
      ensures Valid() && (inserted <==> sub !in old(View()).subs)
      ensures View() == ConnSubscribe(old(View()), sub)
    {
      inserted := sub !in subs;
      if inserted {
        subs := subs + [sub];
      }
    }

    /** Unsubscribing forgets the height, so a later subscription starts over with a snapshot. */
    method OnUnsubscribe(sub: Sub) returns (removed: bool)
      requires Valid()
      modifies this`subs, this`lastHeights
      ensures Valid() && (removed <==> sub in old(View()).subs)
      ensures View() == ConnUnsubscribe(old(View()), sub)
    {
      removed := sub in subs;
      if removed {
        var i :| 0 <= i < |subs| && subs[i] == sub;
        subs := subs[..i] + subs[i + 1..];
        lastHeights := lastHeights - {sub};
      }
    }

    method OnLag()
      modifies this`forceFull
      ensures View() == old(View()).(forceFull := true)
    {
      forceFull := true;
    }

    /** One broadcast flush: every subscription gets the frame it is owed, and lag is made good. */
    method OnFlush(f: Flush) returns (frames: map<Sub, Frame>)
      requires Valid()
      modifies this`lastHeights, this`forceFull
      ensures Valid() && frames == ConnFrames(old(View()), f)
      ensures View() == ConnFlush(old(View()), f)
    {
      frames := map[];
      ghost var c := View();
      var i := 0;
      while i < |subs|
        invariant 0 <= i <= |subs|
        invariant frames == FramesOf(c, subs[..i], f)
        invariant lastHeights == ServedBy(c.served, frames, f.height)
        modifies this`lastHeights
      {
        var sub := subs[i];
        assert sub !in subs[..i] && subs[..i + 1] == subs[..i] + [sub];
        FramesStep(c, subs[..i], sub, f);
        var last := if sub in lastHeights then Some(lastHeights[sub]) else None;
        var frame := FrameFor(sub, last, forceFull, f);
        if frame.Some? {
          ServedStep(c.served, frames, sub, frame.value, f.height);
          frames := frames[sub := frame.value];
          lastHeights := lastHeights[sub := f.height];
        }
        i := i + 1;
      }
      assert subs[..i] == subs;
      forceFull := false;
    }
  }

  /** The frames owed to the first subscriptions of a connection. */
  ghost function FramesOf(c: Conn, subs: seq<Sub>, f: Flush): map<Sub, Frame> {
    map s | s in subs && ConnFrame(c, s, f).Some? :: ConnFrame(c, s, f).value
  }

  lemma FramesStep(c: Conn, subs: seq<Sub>, sub: Sub, f: Flush)
    ensures var frame := ConnFrame(c, sub, f);
            FramesOf(c, subs + [sub], f)
            == if frame.Some? then FramesOf(c, subs, f)[sub := frame.value] else FramesOf(c, subs, f)
  {
  }

  lemma ServedStep(served: map<Sub, nat>, frames: map<Sub, Frame>, sub: Sub, frame: Frame, h: nat)
    ensures ServedBy(served, frames[sub := frame], h) == ServedBy(served, frames, h)[sub := h]
  {
  }
}
