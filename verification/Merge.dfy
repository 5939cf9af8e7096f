/**
 Statuses and diffs, each on a bounded channel, are taken in order of block height. Whatever
 is read is handed out exactly once and in order, also when a wait is cancelled, and neither stream
 runs more than a bounded number of blocks past the other.
 */
module Merge {
  import opened Types

  const MERGE_LOOKAHEAD_BLOCKS: nat := 32
  const MERGE_TAKE: nat := 64

  /** A parsed batch of one stream. */
  datatype Batch = Batch(height: nat, payload: nat)

  /** A line on a channel: the batch it parses to, or None when it is malformed. */
  type Line = Option<Batch>

  /** 0 for the status stream, 1 for the diff stream. */
  type Slot = i: nat | i < 2

  /** One stream: its channel, the batch read ahead, the highest height taken, and whether it was declared dead. */
  datatype Stream = Stream(rx: seq<Line>, closed: bool, peek: Option<Batch>, seen: nat, dead: bool)

  /** A batch taken from a stream; `held` records that the other stream had a head, or was live and had been taken from. */
  datatype Item = Item(batch: Batch, slot: Slot, held: bool)

  /** `log` is the history of everything taken; `ready` is its tail that has not been handed out. */
  datatype Merge = Merge(statuses: Stream, diffs: Stream, floor: nat, ready: seq<Item>, log: seq<Item>)

  function Other(i: Slot): Slot {
    1 - i
  }

  function StreamOf(m: Merge, i: Slot): Stream {
    if i == 0 then m.statuses else m.diffs
  }

  function WithStream(m: Merge, i: Slot, st: Stream): Merge {
    if i == 0 then m.(statuses := st) else m.(diffs := st)
  }

  // ----- the moves of LiveMerge -----

  /** accept: a line has arrived; it revives the stream and is peeked unless malformed or at or below the floor. */
  function Accept(st: Stream, floor: nat, line: Line): Stream {
    if line.Some? && line.value.height > floor then st.(dead := false, peek := line) else st.(dead := false)
  }

  /** refill: take lines off the channel until one gives a head. The flag is false once nothing is left on a closed channel. */
  function Refill(st: Stream, floor: nat): (Stream, bool)
    decreases |st.rx|
  {
    if st.peek.Some? then (st, true)
    else if st.rx == [] then (st, !st.closed)
    else Refill(Accept(st.(rx := st.rx[1..]), floor, st.rx[0]), floor)
  }

  /** pick: the lower head, statuses first on a tie; a lone head only within reach of the other stream. */
  function Pick(m: Merge): Option<Slot> {
    match (m.statuses.peek, m.diffs.peek)
    case (Some(s), Some(d)) => Some(if s.height <= d.height then 0 else 1)
    case (None, None) => None
    case (Some(s), None) => if LoneMayGo(s.height, m.diffs) then Some(0) else None
    case (None, Some(d)) => if LoneMayGo(d.height, m.statuses) then Some(1) else None
  }

  predicate LoneMayGo(h: nat, other: Stream) {
    other.seen == 0 || h <= other.seen + MERGE_LOOKAHEAD_BLOCKS || other.dead
  }

  /** Take the picked head. */
  function TakeHead(m: Merge, i: Slot): Merge
    requires StreamOf(m, i).peek.Some?
  {
    var st, other := StreamOf(m, i), StreamOf(m, Other(i));
    var item := Item(st.peek.value, i, other.peek.Some? || (other.seen != 0 && !other.dead));
    WithStream(m, i, st.(peek := None, seen := Max(st.seen, item.batch.height))).(ready := m.ready + [item], log := m.log + [item])
  }

  datatype Taken = HandOut(items: seq<Item>) | Closed | Waiting

  function HandedOver(m: Merge): Merge {
    m.(ready := [])
  }

  function Backlog(m: Merge): nat {
    |m.statuses.rx| + |m.diffs.rx| + (if m.statuses.peek.Some? then 1 else 0) + (if m.diffs.peek.Some? then 1 else 0)
  }

  /** The synchronous part of `take`: everything up to returning or waiting. */
  function TakeRun(m: Merge): (Merge, Taken)
    decreases Backlog(m)
  {
    if |m.ready| >= MERGE_TAKE then (HandedOver(m), HandOut(m.ready))
    else
      var (s, openS) := Refill(m.statuses, m.floor);
      var m1 := m.(statuses := s);
      if !openS then (m1, Closed)
      else
        var (d, openD) := Refill(m.diffs, m.floor);
        var m2 := m1.(diffs := d);
        if !openD then (m2, Closed)
        else
          RefillShrinks(m.statuses, m.floor);
          RefillShrinks(m.diffs, m.floor);
          var i := Pick(m2);
          if i.Some? then TakeRun(TakeHead(m2, i.value))
          else if m.ready != [] then (HandedOver(m2), HandOut(m.ready))
          else (m2, Waiting)
  }

  lemma {:induction false} RefillShrinks(st: Stream, floor: nat)
    ensures var (st', _) := Refill(st, floor);
            |st'.rx| + (if st'.peek.Some? then 1 else 0) <= |st.rx| + (if st.peek.Some? then 1 else 0)
    decreases |st.rx|
  {
    if st.peek.None? && st.rx != [] {
      RefillShrinks(Accept(st.(rx := st.rx[1..]), floor, st.rx[0]), floor);
    }
  }

  // ----- runs -----

  /** The merge with all lines ever sent to it and all items ever handed out. */
  datatype Sys = Sys(m: Merge, sent0: seq<Line>, sent1: seq<Line>, handed: seq<Item>)

  datatype Move =
    | Send(slot: Slot, line: Line)   // a reader puts a line on its channel
    | Close(slot: Slot)
    | Take                           // a call of `take`, up to its return or its wait; a cancelled wait is just the next call
    | WakeLine(slot: Slot)           // the wait ends with a line
    | WakeDead(slot: Slot)           // the wait ends with the timeout

  function SentOf(sys: Sys, i: Slot): seq<Line> {
    if i == 0 then sys.sent0 else sys.sent1
  }

  /** The merge waits only when nothing may be taken, and then only on a stream with nothing read ahead. */
  predicate MayWake(m: Merge, i: Slot) {
    Pick(m).None? && StreamOf(m, i).peek.None?
  }

  function Next(sys: Sys, move: Move): Sys {
    match move
    case Send(i, line) =>
      var st := StreamOf(sys.m, i);
      var sys' := sys.(m := WithStream(sys.m, i, st.(rx := st.rx + [line])));
      if i == 0 then sys'.(sent0 := sys.sent0 + [line]) else sys'.(sent1 := sys.sent1 + [line])
    case Close(i) => sys.(m := WithStream(sys.m, i, StreamOf(sys.m, i).(closed := true)))
    case Take =>
      var (m, r) := TakeRun(sys.m);
      sys.(m := m, handed := sys.handed + if r.HandOut? then r.items else [])
    case WakeLine(i) =>
      var st := StreamOf(sys.m, i);
      if !MayWake(sys.m, i) || st.rx == [] then sys
      else sys.(m := WithStream(sys.m, i, Accept(st.(rx := st.rx[1..]), sys.m.floor, st.rx[0])))
    case WakeDead(i) =>
      if !MayWake(sys.m, i) || StreamOf(sys.m, Other(i)).peek.None? then sys
      else sys.(m := WithStream(sys.m, i, StreamOf(sys.m, i).(dead := true)))
  }

  function Run(sys: Sys, moves: seq<Move>): Sys
    decreases |moves|
  {
    if moves == [] then sys else Run(Next(sys, moves[0]), moves[1..])
  }

  const NEW_STREAM := Stream([], false, None, 0, false)

  function Start(floor: nat): Sys {
    Sys(Merge(NEW_STREAM, NEW_STREAM, floor, [], []), [], [], [])
  }

  // ----- what must come out -----

  function Kept(line: Line, floor: nat): seq<Batch> {
    if line.Some? && line.value.height > floor then [line.value] else []
  }

  /** The batches of a stream that lie above the floor, in order. */
  function Above(lines: seq<Line>, floor: nat): seq<Batch> {
    if lines == [] then [] else Kept(lines[0], floor) + Above(lines[1..], floor)
  }

  function OfSlot(items: seq<Item>, i: Slot): seq<Batch> {
    if items == [] then []
    else OfSlot(items[..|items| - 1], i) + (if items[|items| - 1].slot == i then [items[|items| - 1].batch] else [])
  }

  function Peeked(st: Stream): seq<Batch> {
    if st.peek.Some? then [st.peek.value] else []
  }

  /** What a stream has sent above the floor and the merge has not taken. */
  function Pending(st: Stream, floor: nat): seq<Batch> {
    Peeked(st) + Above(st.rx, floor)
  }

  /** Everything a stream has sent above the floor has been taken, is peeked, or is still on the channel. */
  ghost predicate Conserved(sys: Sys, i: Slot) {
    Above(SentOf(sys, i), sys.m.floor) == OfSlot(sys.m.log, i) + Pending(StreamOf(sys.m, i), sys.m.floor)
  }

  function LastHeight(bs: seq<Batch>): nat {
    if bs == [] then 0 else bs[|bs| - 1].height
  }

  predicate Monotone(bs: seq<Batch>) {
    forall i, j :: 0 <= i <= j < |bs| ==> bs[i].height <= bs[j].height
  }

  lemma {:induction false} AboveSnoc(lines: seq<Line>, line: Line, floor: nat)
    ensures Above(lines + [line], floor) == Above(lines, floor) + Kept(line, floor)
  {
    if lines == [] {
      assert lines + [line] == [line];
    } else {
      assert (lines + [line])[1..] == lines[1..] + [line];
      AboveSnoc(lines[1..], line, floor);
      Regroup(Kept(lines[0], floor), Above(lines[1..], floor), Kept(line, floor));
    }
  }

  lemma OfSlotSnoc(items: seq<Item>, x: Item, i: Slot)
    ensures OfSlot(items + [x], i) == OfSlot(items, i) + (if x.slot == i then [x.batch] else [])
  {
    assert (items + [x])[..|items + [x]| - 1] == items;
  }

  lemma {:induction false} RefillKeepsContent(st: Stream, floor: nat)
    ensures var (st', _) := Refill(st, floor);
            && Pending(st', floor) == Pending(st, floor)
            && st'.seen == st.seen
            && (st'.peek.None? ==> st'.rx == [])
    decreases |st.rx|
  {
    if st.peek.None? && st.rx != [] {
      var next := Accept(st.(rx := st.rx[1..]), floor, st.rx[0]);
      RefillKeepsContent(next, floor);
      AcceptKeepsContent(st, floor);
    }
  }

  lemma AcceptKeepsContent(st: Stream, floor: nat)
    requires st.peek.None? && st.rx != []
    ensures Pending(Accept(st.(rx := st.rx[1..]), floor, st.rx[0]), floor) == Pending(st, floor)
  {
    assert Pending(st, floor) == Above(st.rx, floor);
  }

  /** Nothing is lost or repeated: what was taken is what was handed out and what is ready. */
  ghost predicate NothingLost(sys: Sys) {
    && sys.handed + sys.m.ready == sys.m.log
    && (forall i: Slot :: Conserved(sys, i))
  }

  // ----- how far the streams may drift apart -----

  /** The lowest height stream `st` can still deliver. */
  function Reach(st: Stream, floor: nat): nat {
    var p := Pending(st, floor);
    if p != [] then p[0].height else st.seen
  }

  ghost predicate SeenIsLast(m: Merge, i: Slot) {
    StreamOf(m, i).seen == LastHeight(OfSlot(m.log, i))
  }

  /** The other stream can no longer deliver more than the lookahead below this item. */
  predicate WithinReach(m: Merge, item: Item) {
    item.held ==> item.batch.height <= Reach(StreamOf(m, Other(item.slot)), m.floor) + MERGE_LOOKAHEAD_BLOCKS
  }

  /** `later`, taken after `earlier` from the other stream, is not more than the lookahead below it. */
  predicate InOrder(earlier: Item, later: Item) {
    earlier.held && later.slot != earlier.slot ==> earlier.batch.height <= later.batch.height + MERGE_LOOKAHEAD_BLOCKS
  }

  ghost predicate Ordered(log: seq<Item>) {
    forall k, l :: 0 <= k < l < |log| ==> InOrder(log[k], log[l])
  }

  ghost predicate InStep(m: Merge) {
    && (forall i: Slot :: SeenIsLast(m, i))
    && (forall k :: 0 <= k < |m.log| ==> WithinReach(m, m.log[k]))
    && Ordered(m.log)
  }

  /** Heights of what stream `i` sent above the floor do not decrease. */
  ghost predicate SentMonotone(sys: Sys, i: Slot) {
    Monotone(Above(SentOf(sys, i), sys.m.floor))
  }

  ghost predicate BothMonotone(sys: Sys) {
    forall i: Slot :: SentMonotone(sys, i)
  }

  ghost predicate Inv(sys: Sys) {
    NothingLost(sys) && (BothMonotone(sys) ==> InStep(sys.m))
  }

  /** Replacing a stream by one with the same content and seen height keeps everything. */
  lemma SameContentKeepsInv(sys: Sys, m': Merge)
    requires Inv(sys)
    requires m'.floor == sys.m.floor && m'.log == sys.m.log && m'.ready == sys.m.ready
    requires forall i: Slot :: SameContent(StreamOf(sys.m, i), StreamOf(m', i), m'.floor)
    ensures Inv(sys.(m := m'))
  {
    SameViewKeepsInv(sys, sys.(m := m'));
  }

  ghost predicate SameContent(st: Stream, st': Stream, floor: nat) {
    Pending(st', floor) == Pending(st, floor) && st'.seen == st.seen
  }

  /** The invariant depends only on what was sent, taken and is pending. */
  lemma SameViewKeepsInv(sys: Sys, sys': Sys)
    requires Inv(sys)
    requires sys'.m.floor == sys.m.floor && sys'.m.log == sys.m.log && sys'.handed + sys'.m.ready == sys.m.log
    requires sys'.sent0 == sys.sent0 && sys'.sent1 == sys.sent1
    requires forall i: Slot :: SameContent(StreamOf(sys.m, i), StreamOf(sys'.m, i), sys.m.floor)
    ensures Inv(sys')
  {
    forall i: Slot
      ensures Conserved(sys', i)
    {
      assert Conserved(sys, i);
      assert SameContent(StreamOf(sys.m, i), StreamOf(sys'.m, i), sys.m.floor);
    }
    if BothMonotone(sys') {
      SameSentSameMonotone(sys, sys');
      SameViewKeepsInStep(sys.m, sys'.m);
    }
  }

  lemma SameSentSameMonotone(sys: Sys, sys': Sys)
    requires BothMonotone(sys') && sys'.m.floor == sys.m.floor && sys'.sent0 == sys.sent0 && sys'.sent1 == sys.sent1
    ensures BothMonotone(sys)
  {
    forall i: Slot
      ensures SentMonotone(sys, i)
    {
      assert SentMonotone(sys', i);
    }
  }

  lemma SameViewKeepsInStep(m: Merge, m': Merge)
    requires InStep(m)
    requires m'.floor == m.floor && m'.log == m.log
    requires forall i: Slot :: SameContent(StreamOf(m, i), StreamOf(m', i), m.floor)
    ensures InStep(m')
  {
    forall i: Slot
      ensures SeenIsLast(m', i)
    {
      assert SeenIsLast(m, i);
      assert SameContent(StreamOf(m, i), StreamOf(m', i), m.floor);
    }
    forall k | 0 <= k < |m'.log|
      ensures WithinReach(m', m'.log[k])
    {
      assert WithinReach(m, m.log[k]);
      var j := Other(m.log[k].slot);
      assert SameContent(StreamOf(m, j), StreamOf(m', j), m.floor);
    }
  }

  lemma HandOverKeepsInv(sys: Sys)
    requires Inv(sys)
    ensures Inv(sys.(m := HandedOver(sys.m), handed := sys.handed + sys.m.ready))
  {
    var sys' := sys.(m := HandedOver(sys.m), handed := sys.handed + sys.m.ready);
    assert sys'.handed + sys'.m.ready == sys'.handed;
    SameViewKeepsInv(sys, sys');
  }

  /** Replacing one stream by one with the same content keeps everything. */
  lemma StreamKeepsInv(sys: Sys, i: Slot, st: Stream)
    requires Inv(sys) && SameContent(StreamOf(sys.m, i), st, sys.m.floor)
    ensures Inv(sys.(m := WithStream(sys.m, i, st)))
  {
    SameContentKeepsInv(sys, WithStream(sys.m, i, st));
  }

  /** A head that may be taken, both streams having been refilled. */
  ghost predicate Takable(m: Merge, i: Slot) {
    && Pick(m) == Some(i)
    && (StreamOf(m, Other(i)).peek.None? ==> StreamOf(m, Other(i)).rx == [])
  }

  /** What taking a head does, stream by stream. */
  lemma TakeHeadEffect(m: Merge, i: Slot, m': Merge, item: Item)
    requires StreamOf(m, i).peek.Some? && m' == TakeHead(m, i) && item == m'.log[|m.log|]
    ensures m'.log == m.log + [item] && m'.ready == m.ready + [item] && m'.floor == m.floor && item.slot == i
    ensures StreamOf(m', Other(i)) == StreamOf(m, Other(i))
    ensures StreamOf(m', i).seen == Max(StreamOf(m, i).seen, item.batch.height)
    ensures Pending(StreamOf(m, i), m.floor) == [item.batch] + Pending(StreamOf(m', i), m.floor)
    ensures OfSlot(m'.log, i) == OfSlot(m.log, i) + [item.batch]
    ensures OfSlot(m'.log, Other(i)) == OfSlot(m.log, Other(i))
  {
    OfSlotSnoc(m.log, item, 0);
    OfSlotSnoc(m.log, item, 1);
  }

  lemma TakeHeadConserves(sys: Sys, i: Slot, m': Merge)
    requires NothingLost(sys) && StreamOf(sys.m, i).peek.Some? && m' == TakeHead(sys.m, i)
    ensures NothingLost(sys.(m := m'))
  {
    TakeHeadEffect(sys.m, i, m', m'.log[|sys.m.log|]);
    var sys' := sys.(m := m');
    assert Conserved(sys, i) && Conserved(sys, Other(i));
    assert Conserved(sys', Other(i));
    MoveHead(OfSlot(sys.m.log, i), m'.log[|sys.m.log|].batch, Pending(StreamOf(m', i), m'.floor));
    assert Conserved(sys', i);
    assert sys.handed + (sys.m.ready + [m'.log[|sys.m.log|]]) == (sys.handed + sys.m.ready) + [m'.log[|sys.m.log|]];
  }

  lemma MoveHead<T>(taken: seq<T>, head: T, rest: seq<T>)
    ensures taken + ([head] + rest) == (taken + [head]) + rest
  {
  }

  lemma HeadComesNext(sent: seq<Batch>, taken: seq<Batch>, head: Batch, rest: seq<Batch>)
    requires Monotone(sent) && sent == taken + ([head] + rest)
    ensures LastHeight(taken) <= head.height
    ensures rest != [] ==> head.height <= rest[0].height
  {
    var n := |taken|;
    assert sent[n] == head;
    assert n > 0 ==> sent[n - 1] == taken[n - 1];
    assert rest != [] ==> sent[n + 1] == rest[0];
  }

  lemma TakeHeadSees(sys: Sys, i: Slot, m': Merge)
    requires Conserved(sys, i) && SeenIsLast(sys.m, i) && SeenIsLast(sys.m, Other(i))
    requires SentMonotone(sys, i)
    requires StreamOf(sys.m, i).peek.Some? && m' == TakeHead(sys.m, i)
    ensures SeenIsLast(m', i) && SeenIsLast(m', Other(i))
    ensures Reach(StreamOf(sys.m, i), sys.m.floor) == m'.log[|sys.m.log|].batch.height
    ensures Reach(StreamOf(sys.m, i), sys.m.floor) <= Reach(StreamOf(m', i), sys.m.floor)
  {
    var item := m'.log[|sys.m.log|];
    TakeHeadEffect(sys.m, i, m', item);
    HeadComesNext(Above(SentOf(sys, i), sys.m.floor), OfSlot(sys.m.log, i), item.batch, Pending(StreamOf(m', i), sys.m.floor));
  }

  lemma NewItemWithinReach(m: Merge, i: Slot)
    requires Takable(m, i)
    ensures var m' := TakeHead(m, i); WithinReach(m', m'.log[|m.log|])
  {
  }

  lemma TakeHeadKeepsInStep(sys: Sys, i: Slot, m': Merge)
    requires NothingLost(sys) && BothMonotone(sys) && InStep(sys.m) && Takable(sys.m, i) && m' == TakeHead(sys.m, i)
    ensures InStep(m')
  {
    var m, item := sys.m, m'.log[|sys.m.log|];
    TakeHeadEffect(m, i, m', item);
    TakeHeadSees(sys, i, m');
    NewItemWithinReach(m, i);
    ReachGrows(m, m', item);
  }

  lemma ReachGrows(m: Merge, m': Merge, item: Item)
    requires m'.log == m.log + [item] && m'.floor == m.floor && WithinReach(m', item)
    requires forall k :: 0 <= k < |m.log| ==> WithinReach(m, m.log[k])
    requires Ordered(m.log)
    requires Reach(StreamOf(m, item.slot), m.floor) == item.batch.height
    requires Reach(StreamOf(m, item.slot), m.floor) <= Reach(StreamOf(m', item.slot), m.floor)
    requires StreamOf(m', Other(item.slot)) == StreamOf(m, Other(item.slot))
    ensures forall k :: 0 <= k < |m'.log| ==> WithinReach(m', m'.log[k])
    ensures Ordered(m'.log)
  {
    forall k | 0 <= k < |m'.log|
      ensures WithinReach(m', m'.log[k])
      ensures k < |m.log| ==> InOrder(m'.log[k], item)
    {
      if k < |m.log| {
        assert WithinReach(m, m.log[k]);
      }
    }
  }

  lemma TakeHeadKeepsInv(sys: Sys, i: Slot)
    requires Inv(sys) && Takable(sys.m, i)
    ensures Inv(sys.(m := TakeHead(sys.m, i)))
  {
    var sys' := sys.(m := TakeHead(sys.m, i));
    TakeHeadConserves(sys, i, sys'.m);
    if BothMonotone(sys') {
      SameSentSameMonotone(sys, sys');
      TakeHeadKeepsInStep(sys, i, sys'.m);
    }
  }

  // ----- every move keeps the invariant -----

  function AfterTake(sys: Sys, r: (Merge, Taken)): Sys {
    sys.(m := r.0, handed := sys.handed + if r.1.HandOut? then r.1.items else [])
  }

  lemma RefillKeepsInv(sys: Sys, i: Slot)
    requires Inv(sys)
    ensures Inv(sys.(m := WithStream(sys.m, i, Refill(StreamOf(sys.m, i), sys.m.floor).0)))
  {
    RefillKeepsContent(StreamOf(sys.m, i), sys.m.floor);
    StreamKeepsInv(sys, i, Refill(StreamOf(sys.m, i), sys.m.floor).0);
  }

  function RefillBoth(m: Merge): Merge {
    m.(statuses := Refill(m.statuses, m.floor).0, diffs := Refill(m.diffs, m.floor).0)
  }

  lemma RefillBothKeepsInv(sys: Sys, m2: Merge)
    requires Inv(sys) && m2 == RefillBoth(sys.m)
    ensures Inv(sys.(m := m2)) && Backlog(m2) <= Backlog(sys.m) && m2.ready == sys.m.ready
    ensures Pick(m2).Some? ==> Takable(m2, Pick(m2).value)
  {
    var sys1 := sys.(m := WithStream(sys.m, 0, Refill(StreamOf(sys.m, 0), sys.m.floor).0));
    RefillKeepsInv(sys, 0);
    RefillKeepsInv(sys1, 1);
    assert WithStream(sys1.m, 1, Refill(StreamOf(sys1.m, 1), sys1.m.floor).0) == m2;
    RefillShrinks(sys.m.statuses, sys.m.floor);
    RefillShrinks(sys.m.diffs, sys.m.floor);
    RefillKeepsContent(sys.m.statuses, sys.m.floor);
    RefillKeepsContent(sys.m.diffs, sys.m.floor);
  }

  lemma {:induction false} TakeRunKeepsInv(sys: Sys)
    requires Inv(sys)
    ensures Inv(AfterTake(sys, TakeRun(sys.m)))
    decreases Backlog(sys.m)
  {
    var m := sys.m;
    assert sys.handed + [] == sys.handed;
    if |m.ready| >= MERGE_TAKE {
      HandOverKeepsInv(sys);
    } else if !Refill(m.statuses, m.floor).1 {
      RefillKeepsInv(sys, 0);
    } else {
      var m2 := RefillBoth(m);
      RefillBothKeepsInv(sys, m2);
      if Refill(m.diffs, m.floor).1 {
        if Pick(m2).Some? {
          TakeHeadKeepsInv(sys.(m := m2), Pick(m2).value);
          TakeRunKeepsInv(sys.(m := TakeHead(m2, Pick(m2).value)));
        } else if m.ready != [] {
          HandOverKeepsInv(sys.(m := m2));
        }
      }
    }
  }

  /** What a line on the channel does, stream by stream. */
  lemma SendEffect(sys: Sys, i: Slot, line: Line, sys': Sys, extra: seq<Batch>)
    requires sys' == Next(sys, Send(i, line))
    requires extra == Kept(line, sys.m.floor)
    ensures sys'.m.log == sys.m.log && sys'.m.floor == sys.m.floor && sys'.m.ready == sys.m.ready && sys'.handed == sys.handed
    ensures Above(SentOf(sys', i), sys.m.floor) == Above(SentOf(sys, i), sys.m.floor) + extra
    ensures SentOf(sys', Other(i)) == SentOf(sys, Other(i))
    ensures StreamOf(sys'.m, Other(i)) == StreamOf(sys.m, Other(i))
    ensures StreamOf(sys'.m, i).seen == StreamOf(sys.m, i).seen
    ensures Pending(StreamOf(sys'.m, i), sys.m.floor) == Pending(StreamOf(sys.m, i), sys.m.floor) + extra
  {
    var st := StreamOf(sys.m, i);
    AboveSnoc(SentOf(sys, i), line, sys.m.floor);
    AboveSnoc(st.rx, line, sys.m.floor);
    Regroup(Peeked(st), Above(st.rx, sys.m.floor), extra);
  }

  lemma SendKeepsInv(sys: Sys, i: Slot, line: Line, sys': Sys)
    requires Inv(sys) && sys' == Next(sys, Send(i, line))
    ensures Inv(sys')
  {
    var floor := sys.m.floor;
    var extra := Kept(line, floor);
    SendEffect(sys, i, line, sys', extra);
    SendConserves(sys, i, sys', extra);
    if BothMonotone(sys') {
      var sent := Above(SentOf(sys, i), floor);
      assert SentMonotone(sys', i) && SentMonotone(sys', Other(i));
      PrefixMonotone(sent, extra);
      assert SentMonotone(sys, i) && SentMonotone(sys, Other(i));
      assert BothMonotone(sys);
      assert Conserved(sys, i);
      SendKeepsReach(sys, sys', i, sent, extra);
    }
  }

  lemma SendConserves(sys: Sys, i: Slot, sys': Sys, extra: seq<Batch>)
    requires NothingLost(sys)
    requires sys'.m.log == sys.m.log && sys'.m.floor == sys.m.floor && sys'.m.ready == sys.m.ready && sys'.handed == sys.handed
    requires Above(SentOf(sys', i), sys.m.floor) == Above(SentOf(sys, i), sys.m.floor) + extra
    requires SentOf(sys', Other(i)) == SentOf(sys, Other(i))
    requires StreamOf(sys'.m, Other(i)) == StreamOf(sys.m, Other(i))
    requires Pending(StreamOf(sys'.m, i), sys.m.floor) == Pending(StreamOf(sys.m, i), sys.m.floor) + extra
    ensures NothingLost(sys')
  {
    forall j: Slot
      ensures Conserved(sys', j)
    {
      assert Conserved(sys, j);
      if j == i {
        Regroup(OfSlot(sys.m.log, i), Pending(StreamOf(sys.m, i), sys.m.floor), extra);
      } else {
        assert j == Other(i);
      }
    }
  }

  lemma PrefixMonotone(a: seq<Batch>, b: seq<Batch>)
    requires Monotone(a + b)
    ensures Monotone(a)
  {
    forall i, j | 0 <= i <= j < |a|
      ensures a[i].height <= a[j].height
    {
      assert (a + b)[i] == a[i] && (a + b)[j] == a[j];
    }
  }

  lemma SendKeepsReach(sys: Sys, sys': Sys, i: Slot, sent: seq<Batch>, extra: seq<Batch>)
    requires InStep(sys.m) && Monotone(sent + extra) && |extra| <= 1
    requires sys'.m.log == sys.m.log && sys'.m.floor == sys.m.floor
    requires StreamOf(sys'.m, Other(i)) == StreamOf(sys.m, Other(i))
    requires StreamOf(sys'.m, i).seen == StreamOf(sys.m, i).seen
    requires Pending(StreamOf(sys'.m, i), sys.m.floor) == Pending(StreamOf(sys.m, i), sys.m.floor) + extra
    requires sent == OfSlot(sys.m.log, i) + Pending(StreamOf(sys.m, i), sys.m.floor)
    ensures InStep(sys'.m)
  {
    var m, m' := sys.m, sys'.m;
    assert SeenIsLast(m, i) && SeenIsLast(m, Other(i));
    assert SeenIsLast(m', i) && SeenIsLast(m', Other(i));
    ReachAfterSend(StreamOf(m, i), StreamOf(m', i), m.floor, OfSlot(m.log, i), extra);
    forall k | 0 <= k < |m'.log|
      ensures WithinReach(m', m'.log[k])
    {
      assert WithinReach(m, m.log[k]);
    }
  }

  /** A new batch at the end never lowers what a stream can still deliver. */
  lemma ReachAfterSend(st: Stream, st': Stream, floor: nat, taken: seq<Batch>, extra: seq<Batch>)
    requires Monotone((taken + Pending(st, floor)) + extra) && |extra| <= 1
    requires st.seen == LastHeight(taken) && st'.seen == st.seen && Pending(st', floor) == Pending(st, floor) + extra
    ensures Reach(st, floor) <= Reach(st', floor)
  {
    if Pending(st, floor) == [] && extra != [] {
      LastBeforeNext(taken, extra);
    }
  }

  lemma LastBeforeNext(taken: seq<Batch>, extra: seq<Batch>)
    requires Monotone((taken + []) + extra) && |extra| == 1
    ensures LastHeight(taken) <= extra[0].height
  {
    assert (taken + []) + extra == taken + ([extra[0]] + []);
    HeadComesNext(taken + ([extra[0]] + []), taken, extra[0], []);
  }

  lemma WakeKeepsInv(sys: Sys, i: Slot)
    requires Inv(sys)
    ensures Inv(Next(sys, WakeLine(i)))
  {
    if MayWake(sys.m, i) && StreamOf(sys.m, i).rx != [] {
      var st := StreamOf(sys.m, i);
      AcceptKeepsContent(st, sys.m.floor);
      StreamKeepsInv(sys, i, Accept(st.(rx := st.rx[1..]), sys.m.floor, st.rx[0]));
    }
  }

  lemma FlagsKeepInv(sys: Sys, i: Slot)
    requires Inv(sys)
    ensures Inv(Next(sys, Close(i))) && Inv(Next(sys, WakeDead(i)))
  {
    StreamKeepsInv(sys, i, StreamOf(sys.m, i).(closed := true));
    StreamKeepsInv(sys, i, StreamOf(sys.m, i).(dead := true));
  }

  lemma NextKeepsInv(sys: Sys, move: Move)
    requires Inv(sys)
    ensures Inv(Next(sys, move))
  {
    match move {
      case Send(i, line) => SendKeepsInv(sys, i, line, Next(sys, move));
      case Take => TakeRunKeepsInv(sys);
      case WakeLine(i) => WakeKeepsInv(sys, i);
      case Close(i) => FlagsKeepInv(sys, i);
      case WakeDead(i) => FlagsKeepInv(sys, i);
    }
  }

  lemma {:induction false} RunKeepsInv(sys: Sys, moves: seq<Move>)
    requires Inv(sys)
    ensures Inv(Run(sys, moves)) && Run(sys, moves).m.floor == sys.m.floor
    decreases |moves|
  {
    if moves != [] {
      NextKeepsInv(sys, moves[0]);
      NextKeepsFloor(sys, moves[0]);
      RunKeepsInv(Next(sys, moves[0]), moves[1..]);
    }
  }

  lemma NextKeepsFloor(sys: Sys, move: Move)
    ensures Next(sys, move).m.floor == sys.m.floor
  {
    if move == Take {
      TakeRunKeepsFloor(sys.m);
    }
  }

  lemma {:induction false} TakeRunKeepsFloor(m: Merge)
    ensures TakeRun(m).0.floor == m.floor
    decreases Backlog(m)
  {
    if |m.ready| < MERGE_TAKE {
      var m2 := m.(statuses := Refill(m.statuses, m.floor).0, diffs := Refill(m.diffs, m.floor).0);
      RefillShrinks(m.statuses, m.floor);
      RefillShrinks(m.diffs, m.floor);
      if Refill(m.statuses, m.floor).1 && Refill(m.diffs, m.floor).1 && Pick(m2).Some? {
        TakeRunKeepsFloor(TakeHead(m2, Pick(m2).value));
      }
    }
  }

  /**
   Conservation over every run: the batches of a stream above the floor are, in order, those
   handed out, those ready, the one peeked and those still on the channel.
   */
  lemma MergeConserves(floor: nat, moves: seq<Move>, i: Slot)
    ensures var sys := Run(Start(floor), moves);
            Above(SentOf(sys, i), floor)
            == (OfSlot(sys.handed, i) + OfSlot(sys.m.ready, i))
               + (Peeked(StreamOf(sys.m, i)) + Above(StreamOf(sys.m, i).rx, floor))
  {
    RunKeepsInv(Start(floor), moves);
    var sys := Run(Start(floor), moves);
    assert NothingLost(sys);
    assert Conserved(sys, i);
    OfSlotConcat(sys.handed, sys.m.ready, i);
  }

  lemma {:induction false} OfSlotConcat(a: seq<Item>, b: seq<Item>, i: Slot)
    ensures OfSlot(a + b, i) == OfSlot(a, i) + OfSlot(b, i)
    decreases |b|
  {
    if b == [] {
      assert a + b == a;
    } else {
      var n := |b| - 1;
      assert a + b == (a + b[..n]) + [b[n]];
      OfSlotConcat(a, b[..n], i);
      OfSlotSnoc(a + b[..n], b[n], i);
    }
  }

  /**
   Bounded disorder over every run of streams with non-decreasing heights: once a batch has
   been handed out while the other stream had a head, or was live and had been taken from, no
   later batch of the other stream lies more than the lookahead below it.
   */
  lemma DisorderIsBounded(floor: nat, moves: seq<Move>, k: nat, l: nat)
    requires BothMonotone(Run(Start(floor), moves))
    requires k < l < |Run(Start(floor), moves).handed|
    ensures var handed := Run(Start(floor), moves).handed;
            handed[k].held && handed[k].slot != handed[l].slot
            ==> handed[l].batch.height + 32 >= handed[k].batch.height
  {
    RunKeepsInv(Start(floor), moves);
    var sys := Run(Start(floor), moves);
    assert sys.m.log[k] == sys.handed[k] && sys.m.log[l] == sys.handed[l];
    assert InOrder(sys.m.log[k], sys.m.log[l]);
  }

  /** Within one stream the hand-out order is the stream's own order. */
  lemma StreamOrderIsKept(floor: nat, moves: seq<Move>, i: Slot)
    ensures var sys := Run(Start(floor), moves); OfSlot(sys.handed, i) <= Above(SentOf(sys, i), floor)
  {
    MergeConserves(floor, moves, i);
  }

  // ----- the object -----

  /** The merge and its two channels. The ghost log is what `ready` and the hand-outs together amount to. */
  class LiveMerge {
    var statuses: Stream
    var diffs: Stream
    var floor: nat
    var ready: seq<Item>
    ghost var log: seq<Item>

    ghost function View(): Merge
      reads this
    {
      Merge(statuses, diffs, floor, ready, log)
    }

    constructor (floor: nat)
      ensures View() == Start(floor).m
    {
      statuses, diffs := NEW_STREAM, NEW_STREAM;
      this.floor, ready, log := floor, [], [];
    }

    /** Make sure stream `i` has a head, as far as its channel has lines; false once it is closed and drained. */
    method RefillStream(i: Slot) returns (alive: bool)
      modifies this`statuses, this`diffs
      ensures View() == WithStream(old(View()), i, Refill(StreamOf(old(View()), i), floor).0)
      ensures alive == Refill(StreamOf(old(View()), i), floor).1
    {
      var st := if i == 0 then statuses else diffs;
      ghost var st0 := st;
      while st.peek.None? && st.rx != []
        invariant Refill(st, floor) == Refill(st0, floor)
        decreases |st.rx|
      {
        st := Accept(st.(rx := st.rx[1..]), floor, st.rx[0]);
      }
      if i == 0 {
        statuses := st;
      } else {
        diffs := st;
      }
      alive := st.peek.Some? || !st.closed;
    }

    /** Move the head of stream `i` to the batches that are ready. */
    method TakeFrom(i: Slot)
      requires StreamOf(View(), i).peek.Some?
      modifies this
      ensures View() == TakeHead(old(View()), i)
    {
      var st, other := if i == 0 then statuses else diffs, if i == 0 then diffs else statuses;
      var item := Item(st.peek.value, i, other.peek.Some? || (other.seen != 0 && !other.dead));
      st := st.(peek := None, seen := Max(st.seen, item.batch.height));
      if i == 0 {
        statuses := st;
      } else {
        diffs := st;
      }
      ready, log := ready + [item], log + [item];
    }

    /** The stream whose head goes next: the lower one, or a lone one within reach. */
    method PickStream() returns (r: Option<Slot>)
      ensures r == Pick(View())
    {
      if statuses.peek.Some? && diffs.peek.Some? {
        return Some(if statuses.peek.value.height <= diffs.peek.value.height then 0 else 1);
      }
      if statuses.peek.None? && diffs.peek.None? {
        return None;
      }
      var me: Slot := if statuses.peek.Some? then 0 else 1;
      var head, other := if me == 0 then statuses.peek else diffs.peek, if me == 0 then diffs else statuses;
      var mayGo := other.seen == 0 || head.value.height <= other.seen + MERGE_LOOKAHEAD_BLOCKS || other.dead;
      r := if mayGo then Some(me) else None;
    }

    /** One call of `take`, up to its return or its wait. */
    method TakeBatches() returns (r: Taken)
      modifies this
      ensures (View(), r) == TakeRun(old(View()))
    {
      while |ready| < MERGE_TAKE
        invariant TakeRun(View()) == TakeRun(old(View()))
        decreases Backlog(View())
      {
        RefillShrinks(statuses, floor);
        RefillShrinks(diffs, floor);
        var alive := RefillStream(0);
        if !alive { return Closed; }
        alive := RefillStream(1);
        if !alive { return Closed; }
        var i := PickStream();
        if i.Some? {
          TakeFrom(i.value);
        } else if ready != [] {
          r, ready := HandOut(ready), [];
          return;
        } else {
          return Waiting;
        }
      }
      r, ready := HandOut(ready), [];
    }

    /** The wait ends with a line of stream `i`. */
    method OnLine(i: Slot, line: Line)
      requires StreamOf(View(), i).rx != [] && line == StreamOf(View(), i).rx[0]
      modifies this`statuses, this`diffs
      ensures var st := StreamOf(old(View()), i); View() == WithStream(old(View()), i, Accept(st.(rx := st.rx[1..]), floor, line))
    {
      if i == 0 {
        statuses := Accept(statuses.(rx := statuses.rx[1..]), floor, line);
      } else {
        diffs := Accept(diffs.(rx := diffs.rx[1..]), floor, line);
      }
    }

    /** The wait on stream `i` ran out. */
    method OnTimeout(i: Slot)
      modifies this`statuses, this`diffs
      ensures View() == WithStream(old(View()), i, StreamOf(old(View()), i).(dead := true))
    {
      if i == 0 {
        statuses := statuses.(dead := true);
      } else {
        diffs := diffs.(dead := true);
      }
    }
  }
}
