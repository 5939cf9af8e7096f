/**
 The order in which the merge takes batches, said of what the two streams still have to deliver:
 the lowest block goes first, a status before a diff of its block, and a stream that is alone waits
 for the other unless that one is new, dead or near.
 */
module MergeOrder {
  import opened Types
  import opened Merge

  /** What a stream has to deliver, the highest block taken from it, and whether it is dead with nothing on its channel. */
  datatype Todo = Todo(pending: seq<Batch>, seen: nat, quiet: bool)

  function TodoOf(st: Stream, floor: nat): Todo {
    Todo(Pending(st, floor), st.seen, st.dead && st.rx == [])
  }

  /** The stream's first batch may go now, given what the other one has. */
  predicate MayGo(mine: Todo, other: Todo, status: bool) {
    && mine.pending != []
    && (if other.pending != [] then
          mine.pending[0].height < other.pending[0].height || (status && mine.pending[0].height == other.pending[0].height)
        else other.seen == 0 || other.quiet || mine.pending[0].height <= other.seen + 32)
  }

  function Without(t: Todo): Todo
    requires t.pending != []
  {
    Todo(t.pending[1..], Max(t.seen, t.pending[0].height), t.quiet)
  }

  /** What a batch taken from a stream says of the other one. */
  predicate Holds(other: Todo, item: Item) {
    item.held <==> other.pending != [] || (other.seen != 0 && !other.quiet)
  }

  /** These items are what goes, one after the other. */
  ghost predicate Merged(statuses: Todo, diffs: Todo, items: seq<Item>)
    decreases |items|
  {
    items == [] ||
    (if items[0].slot == 0 then
       && MayGo(statuses, diffs, true) && items[0].batch == statuses.pending[0] && Holds(diffs, items[0])
       && Merged(Without(statuses), diffs, items[1..])
     else
       && MayGo(diffs, statuses, false) && items[0].batch == diffs.pending[0] && Holds(statuses, items[0])
       && Merged(statuses, Without(diffs), items[1..]))
  }

  // ----- the pick -----

  /** The first batch of each stream is at hand, if it has one. */
  ghost predicate AtHand(m: Merge) {
    forall i: Slot :: StreamOf(m, i).peek.None? ==> StreamOf(m, i).rx == []
  }

  /** A stream is picked exactly when its first batch may go; nothing is picked exactly when neither may. */
  lemma PickIffMayGo(m: Merge)
    requires AtHand(m)
    ensures Pick(m) == Some(0) <==> MayGo(TodoOf(m.statuses, m.floor), TodoOf(m.diffs, m.floor), true)
    ensures Pick(m) == Some(1) <==> MayGo(TodoOf(m.diffs, m.floor), TodoOf(m.statuses, m.floor), false)
  {
    assert StreamOf(m, 0).peek.None? ==> StreamOf(m, 0).rx == [];
    assert StreamOf(m, 1).peek.None? ==> StreamOf(m, 1).rx == [];
  }

  /**
   With both heads there the lower block is picked, the status when they are of one block. Nothing is picked
   only when there is no head, or a lone one lies more than 32 blocks past a live stream that was taken from.
   */
  lemma PickIs(m: Merge)
    ensures m.statuses.peek.Some? && m.diffs.peek.Some? ==>
              Pick(m) == Some(if m.diffs.peek.value.height < m.statuses.peek.value.height then 1 else 0)
    ensures Pick(m).None? <==>
              || (m.statuses.peek.None? && m.diffs.peek.None?)
              || (exists i: Slot ::
                    && StreamOf(m, i).peek.Some? && StreamOf(m, Other(i)).peek.None?
                    && StreamOf(m, Other(i)).seen != 0 && !StreamOf(m, Other(i)).dead
                    && StreamOf(m, i).peek.value.height > StreamOf(m, Other(i)).seen + 32)
  {
    assert StreamOf(m, 0) == m.statuses && StreamOf(m, 1) == m.diffs && Other(0) == 1 && Other(1) == 0;
  }

  // ----- one call of take -----

  lemma {:induction false} RefillKeepsTodo(st: Stream, floor: nat)
    ensures var st' := Refill(st, floor).0;
            && TodoOf(st', floor) == TodoOf(st, floor) && (st'.peek.None? ==> st'.rx == []) && st'.closed == st.closed
            && (Refill(st, floor).1 <==> st'.peek.Some? || !st.closed)
    decreases |st.rx|
  {
    if st.peek.None? && st.rx != [] {
      AcceptKeepsContent(st, floor);
      RefillKeepsTodo(Accept(st.(rx := st.rx[1..]), floor, st.rx[0]), floor);
    }
  }

  lemma RefillBothKeepsTodo(m: Merge)
    ensures var m2 := RefillBoth(m);
            && AtHand(m2)
            && TodoOf(m2.statuses, m.floor) == TodoOf(m.statuses, m.floor)
            && TodoOf(m2.diffs, m.floor) == TodoOf(m.diffs, m.floor)
  {
    RefillKeepsTodo(m.statuses, m.floor);
    RefillKeepsTodo(m.diffs, m.floor);
    forall i: Slot
      ensures StreamOf(RefillBoth(m), i).peek.None? ==> StreamOf(RefillBoth(m), i).rx == []
    {
    }
  }

  /** Taking the picked head is the first step of what `Merged` describes. */
  lemma TakeHeadMerges(m: Merge, i: Slot, later: seq<Item>)
    requires AtHand(m) && Pick(m) == Some(i)
    requires var m' := TakeHead(m, i); Merged(TodoOf(m'.statuses, m.floor), TodoOf(m'.diffs, m.floor), later)
    ensures var item := TakeHead(m, i).log[|m.log|];
            Merged(TodoOf(m.statuses, m.floor), TodoOf(m.diffs, m.floor), [item] + later)
  {
    var m', st := TakeHead(m, i), StreamOf(m, i);
    var item := m'.log[|m.log|];
    PickIffMayGo(m);
    assert ([item] + later)[1..] == later;
    assert StreamOf(m, Other(i)).peek.None? ==> StreamOf(m, Other(i)).rx == [];
    assert TodoOf(StreamOf(m', i), m.floor) == Without(TodoOf(st, m.floor)) by {
      assert Pending(st, m.floor)[1..] == Above(st.rx, m.floor);
      assert Peeked(StreamOf(m', i)) + Above(st.rx, m.floor) == Above(st.rx, m.floor);
    }
  }

  /** Neither stream's first batch may go. */
  predicate Stuck(m: Merge) {
    && !MayGo(TodoOf(m.statuses, m.floor), TodoOf(m.diffs, m.floor), true)
    && !MayGo(TodoOf(m.diffs, m.floor), TodoOf(m.statuses, m.floor), false)
  }

  predicate Drained(st: Stream, floor: nat) {
    st.closed && Pending(st, floor) == []
  }

  /** Why a call of `take` ended the way it did, `added` being what it took. */
  ghost predicate Ends(m: Merge, added: seq<Item>, m': Merge, r: Taken) {
    match r
    case HandOut(items) => items == m.ready + added && m'.ready == [] && (|items| >= 64 || (items != [] && Stuck(m')))
    case Closed => m'.ready == m.ready + added && (Drained(m'.statuses, m.floor) || Drained(m'.diffs, m.floor))
    case Waiting => added == [] && m.ready == [] && m'.ready == [] && Stuck(m')
  }

  /** What one call of `take` took and why it ended. */
  ghost predicate Takes(m: Merge, added: seq<Item>, m': Merge, r: Taken) {
    && m'.log == m.log + added
    && Merged(TodoOf(m.statuses, m.floor), TodoOf(m.diffs, m.floor), added)
    && Ends(m, added, m', r)
    && |m.ready + added| <= Max(64, |m.ready|)
  }

  /** A call that ends before it takes anything more. */
  lemma EndsAtOnce(m: Merge, m2: Merge)
    requires m2 == RefillBoth(m) && AtHand(m2)
    requires |m.ready| >= 64 || !Refill(m.statuses, m.floor).1 || !Refill(m.diffs, m.floor).1 || Pick(m2).None?
    ensures Takes(m, [], TakeRun(m).0, TakeRun(m).1)
  {
    if |m.ready| >= 64 {
      EndsFull(m);
    } else if !Refill(m.statuses, m.floor).1 || !Refill(m.diffs, m.floor).1 {
      EndsClosed(m);
    } else {
      PickIffMayGo(m2);
      NothingToPick(m, m2);
      EndsStuck(m, m2);
    }
  }

  lemma EndsFull(m: Merge)
    requires |m.ready| >= 64
    ensures Takes(m, [], TakeRun(m).0, TakeRun(m).1)
  {
    assert m.log + [] == m.log && m.ready + [] == m.ready;
  }

  lemma EndsClosed(m: Merge)
    requires |m.ready| < 64 && (!Refill(m.statuses, m.floor).1 || !Refill(m.diffs, m.floor).1)
    ensures Takes(m, [], TakeRun(m).0, TakeRun(m).1)
  {
    assert m.log + [] == m.log && m.ready + [] == m.ready;
    RefillKeepsTodo(m.statuses, m.floor);
    RefillKeepsTodo(m.diffs, m.floor);
  }

  lemma EndsStuck(m: Merge, m2: Merge)
    requires m2 == RefillBoth(m) && |m.ready| < 64 && Stuck(m2)
    requires TakeRun(m) == if m.ready != [] then (HandedOver(m2), HandOut(m.ready)) else (m2, Waiting)
    ensures Takes(m, [], TakeRun(m).0, TakeRun(m).1)
  {
    assert m.log + [] == m.log && m.ready + [] == m.ready;
  }

  lemma NothingToPick(m: Merge, m2: Merge)
    requires m2 == RefillBoth(m) && |m.ready| < 64 && Refill(m.statuses, m.floor).1 && Refill(m.diffs, m.floor).1
    requires Pick(m2).None? && Stuck(m2)
    ensures TakeRun(m) == if m.ready != [] then (HandedOver(m2), HandOut(m.ready)) else (m2, Waiting)
  {
    RefillShrinks(m.statuses, m.floor);
    RefillShrinks(m.diffs, m.floor);
  }

  /**
   Every call of `take`, from any state: what it takes is what goes, batch by batch; and it stops when
   64 batches are ready, when a stream is closed and drained, or when nothing may go.
   */
  lemma {:induction false} TakeMerges(m: Merge) returns (added: seq<Item>)
    ensures Takes(m, added, TakeRun(m).0, TakeRun(m).1)
    decreases Backlog(m), 0
  {
    var m2 := RefillBoth(m);
    RefillBothKeepsTodo(m);
    if |m.ready| < 64 && Refill(m.statuses, m.floor).1 && Refill(m.diffs, m.floor).1 && Pick(m2).Some? {
      RefillShrinks(m.statuses, m.floor);
      RefillShrinks(m.diffs, m.floor);
      added := TakeStep(m, m2, Pick(m2).value);
    } else {
      added := [];
      EndsAtOnce(m, m2);
    }
  }

  lemma {:induction false} TakeStep(m: Merge, m2: Merge, i: Slot) returns (added: seq<Item>)
    requires m2 == RefillBoth(m) && |m.ready| < 64 && Pick(m2) == Some(i) && AtHand(m2)
    requires TodoOf(m2.statuses, m.floor) == TodoOf(m.statuses, m.floor) && TodoOf(m2.diffs, m.floor) == TodoOf(m.diffs, m.floor)
    requires Backlog(TakeHead(m2, i)) < Backlog(m) && TakeRun(m) == TakeRun(TakeHead(m2, i))
    ensures Takes(m, added, TakeRun(m).0, TakeRun(m).1)
    decreases Backlog(TakeHead(m2, i)), 1
  {
    var m3 := TakeHead(m2, i);
    var item := m3.log[|m.log|];
    var later := TakeMerges(m3);
    TakeHeadMerges(m2, i, later);
    added := [item] + later;
    Regroup(m.log, [item], later);
    Regroup(m.ready, [item], later);
  }

  // ----- the wait -----

  /** A call that waits leaves a stream without a head, and a line or the timeout of any such stream can end the wait. */
  lemma WaitCanEnd(m: Merge)
    requires TakeRun(m).1.Waiting?
    ensures var m' := TakeRun(m).0;
            && (m'.statuses.peek.None? || m'.diffs.peek.None?)
            && (forall i: Slot :: StreamOf(m', i).peek.None? ==> MayWake(m', i))
  {
    WaitingIsStuck(m);
  }

  lemma {:induction false} WaitingIsStuck(m: Merge)
    requires TakeRun(m).1.Waiting?
    ensures Pick(TakeRun(m).0).None?
    decreases Backlog(m)
  {
    RefillShrinks(m.statuses, m.floor);
    RefillShrinks(m.diffs, m.floor);
    var m2 := RefillBoth(m);
    if Pick(m2).Some? {
      WaitingIsStuck(TakeHead(m2, Pick(m2).value));
    }
  }

  /** When the wait for the other stream times out, the lone head goes next. */
  lemma TimeoutLetsGo(sys: Sys, i: Slot)
    requires MayWake(sys.m, i) && StreamOf(sys.m, Other(i)).peek.Some?
    ensures Pick(Next(sys, WakeDead(i)).m) == Some(Other(i))
  {
  }

  // ----- block order -----

  /** In block order, the status of a block before its diffs. */
  predicate Before(a: Batch, i: Slot, b: Batch, j: Slot) {
    a.height < b.height || (a.height == b.height && i <= j)
  }

  /** What a stream still has to deliver comes after a batch. */
  ghost predicate AllAfter(a: Batch, i: Slot, pending: seq<Batch>, j: Slot) {
    forall k :: 0 <= k < |pending| ==> Before(a, i, pending[k], j)
  }

  ghost predicate InBlockOrder(items: seq<Item>) {
    forall k, l :: 0 <= k < l < |items| ==> Before(items[k].batch, items[k].slot, items[l].batch, items[l].slot)
  }

  lemma HeadIsFirst(pending: seq<Batch>, i: Slot)
    requires Monotone(pending) && pending != []
    ensures AllAfter(pending[0], i, pending, i) && Monotone(pending[1..])
  {
  }

  lemma AllAfterFollows(a: Batch, i: Slot, b: Batch, j: Slot, pending: seq<Batch>, k: Slot)
    requires Before(a, i, b, j) && AllAfter(b, j, pending, k)
    ensures AllAfter(a, i, pending, k)
  {
  }

  /** The batch that goes comes before everything either stream has left. */
  lemma GoesFirst(mine: Todo, other: Todo, i: Slot)
    requires MayGo(mine, other, i == 0) && Monotone(mine.pending) && Monotone(other.pending)
    ensures AllAfter(mine.pending[0], i, mine.pending, i) && AllAfter(mine.pending[0], i, other.pending, Other(i))
  {
    HeadIsFirst(mine.pending, i);
    if other.pending != [] {
      HeadIsFirst(other.pending, Other(i));
      AllAfterFollows(mine.pending[0], i, other.pending[0], Other(i), other.pending, Other(i));
    }
  }

  /** Every item comes before what the streams have left once all of them are taken. */
  ghost predicate AheadOf(items: seq<Item>, statuses: seq<Batch>, diffs: seq<Batch>) {
    forall k :: 0 <= k < |items| ==>
      AllAfter(items[k].batch, items[k].slot, statuses, 0) && AllAfter(items[k].batch, items[k].slot, diffs, 1)
  }

  lemma OfSlotCons(x: Item, items: seq<Item>, i: Slot)
    ensures OfSlot([x] + items, i) == (if x.slot == i then [x.batch] else []) + OfSlot(items, i)
  {
    OfSlotConcat([x], items, i);
    assert [x][..0] == [] && OfSlot([x], i) == OfSlot([], i) + (if x.slot == i then [x.batch] else []);
  }

  /** What is taken are the first batches of each stream, and of the rest nothing should have come sooner. */
  lemma {:induction false} MergedIsSorted(statuses: Todo, diffs: Todo, items: seq<Item>, left: seq<Batch>, right: seq<Batch>)
    requires Merged(statuses, diffs, items) && Monotone(statuses.pending) && Monotone(diffs.pending)
    requires statuses.pending == OfSlot(items, 0) + left && diffs.pending == OfSlot(items, 1) + right
    ensures InBlockOrder(items) && AheadOf(items, left, right)
    decreases |items|
  {
    if items != [] {
      var x, later := items[0], items[1..];
      assert items == [x] + later;
      OfSlotCons(x, later, 0);
      OfSlotCons(x, later, 1);
      if x.slot == 0 {
        GoesFirst(statuses, diffs, 0);
        HeadIsFirst(statuses.pending, 0);
        TailIs(statuses.pending, x.batch, OfSlot(later, 0), left);
        MergedIsSorted(Without(statuses), diffs, later, left, right);
      } else {
        GoesFirst(diffs, statuses, 1);
        HeadIsFirst(diffs.pending, 1);
        TailIs(diffs.pending, x.batch, OfSlot(later, 1), right);
        MergedIsSorted(statuses, Without(diffs), later, left, right);
      }
      FirstIsAhead(x, later, OfSlot(items, 0), left, OfSlot(items, 1), right);
    }
  }

  /** A batch that comes before all that is pending comes before what is taken of it and what is left. */
  lemma FirstIsAhead(x: Item, later: seq<Item>, taken0: seq<Batch>, left: seq<Batch>, taken1: seq<Batch>, right: seq<Batch>)
    requires AllAfter(x.batch, x.slot, taken0 + left, 0) && AllAfter(x.batch, x.slot, taken1 + right, 1)
    requires taken0 == OfSlot([x] + later, 0) && taken1 == OfSlot([x] + later, 1)
    requires InBlockOrder(later) && AheadOf(later, left, right)
    ensures InBlockOrder([x] + later) && AheadOf([x] + later, left, right)
  {
    BeforeWhatIsLeft(x, taken0, left, 0);
    BeforeWhatIsLeft(x, taken1, right, 1);
    forall k | 0 <= k < |later|
      ensures Before(x.batch, x.slot, later[k].batch, later[k].slot)
    {
      assert ([x] + later)[k + 1] == later[k];
      ItemIsPending([x] + later, k + 1);
      if later[k].slot == 0 {
        BeforeWhatIsTaken(x, taken0, left, 0, later[k].batch);
      } else {
        BeforeWhatIsTaken(x, taken1, right, 1, later[k].batch);
      }
    }
  }

  lemma TailIs(pending: seq<Batch>, x: Batch, taken: seq<Batch>, left: seq<Batch>)
    requires pending == ([x] + taken) + left
    ensures pending[1..] == taken + left
  {
  }

  lemma {:induction false} ItemIsPending(items: seq<Item>, k: nat)
    requires k < |items|
    ensures items[k].batch in OfSlot(items, items[k].slot)
  {
    if k < |items| - 1 {
      ItemIsPending(items[..|items| - 1], k);
    }
  }

  lemma BeforeWhatIsLeft(x: Item, taken: seq<Batch>, left: seq<Batch>, j: Slot)
    requires AllAfter(x.batch, x.slot, taken + left, j)
    ensures AllAfter(x.batch, x.slot, left, j)
  {
    forall k | 0 <= k < |left|
      ensures Before(x.batch, x.slot, left[k], j)
    {
      assert (taken + left)[|taken| + k] == left[k];
    }
  }

  lemma BeforeWhatIsTaken(x: Item, taken: seq<Batch>, left: seq<Batch>, j: Slot, b: Batch)
    requires AllAfter(x.batch, x.slot, taken + left, j) && b in taken
    ensures Before(x.batch, x.slot, b, j)
  {
    var n :| 0 <= n < |taken| && taken[n] == b;
    assert (taken + left)[n] == b;
  }

  lemma {:induction false} TakeKeepsPending(sys: Sys, i: Slot, added: seq<Item>)
    requires Inv(sys) && TakeRun(sys.m).0.log == sys.m.log + added
    ensures Pending(StreamOf(sys.m, i), sys.m.floor) == OfSlot(added, i) + Pending(StreamOf(TakeRun(sys.m).0, i), sys.m.floor)
  {
    TakeRunKeepsInv(sys);
    TakeRunKeepsFloor(sys.m);
    var sys' := AfterTake(sys, TakeRun(sys.m));
    assert Conserved(sys, i) && Conserved(sys', i);
    OfSlotConcat(sys.m.log, added, i);
    var p, q := Pending(StreamOf(sys.m, i), sys.m.floor), Pending(StreamOf(sys'.m, i), sys.m.floor);
    Regroup(OfSlot(sys.m.log, i), OfSlot(added, i), q);
    SameSuffix(OfSlot(sys.m.log, i), p, OfSlot(added, i) + q);
  }

  lemma SameSuffix<T>(a: seq<T>, b: seq<T>, c: seq<T>)
    requires a + b == a + c
    ensures b == c
  {
    assert (a + b)[|a|..] == b && (a + c)[|a|..] == c;
  }

  lemma {:induction false} RestIsMonotone(sys: Sys, i: Slot)
    requires Inv(sys) && SentMonotone(sys, i)
    ensures Monotone(Pending(StreamOf(sys.m, i), sys.m.floor))
  {
    assert Conserved(sys, i);
    var taken, p := OfSlot(sys.m.log, i), Pending(StreamOf(sys.m, i), sys.m.floor);
    forall k, l | 0 <= k <= l < |p|
      ensures p[k].height <= p[l].height
    {
      assert (taken + p)[|taken| + k] == p[k] && (taken + p)[|taken| + l] == p[l];
    }
  }

  /**
   Over every run of streams with non-decreasing heights: what one call of `take` takes is in block order,
   statuses before the diffs of their block, and comes before everything both streams had sent by then
   and the call has left.
   */
  lemma TakeIsInBlockOrder(floor: nat, moves: seq<Move>) returns (added: seq<Item>)
    requires BothMonotone(Run(Start(floor), moves))
    ensures var m := Run(Start(floor), moves).m;
            var m' := TakeRun(m).0;
            && m'.log == m.log + added
            && InBlockOrder(added)
            && AheadOf(added, Pending(m'.statuses, floor), Pending(m'.diffs, floor))
  {
    RunKeepsInv(Start(floor), moves);
    added := TakeSorts(Run(Start(floor), moves));
  }

  lemma TakeSorts(sys: Sys) returns (added: seq<Item>)
    requires Inv(sys) && BothMonotone(sys)
    ensures var m' := TakeRun(sys.m).0;
            && m'.log == sys.m.log + added && InBlockOrder(added)
            && AheadOf(added, Pending(m'.statuses, sys.m.floor), Pending(m'.diffs, sys.m.floor))
  {
    added := TakeMerges(sys.m);
    TakeKeepsPending(sys, 0, added);
    TakeKeepsPending(sys, 1, added);
    assert SentMonotone(sys, 0) && SentMonotone(sys, 1);
    RestIsMonotone(sys, 0);
    RestIsMonotone(sys, 1);
    var m, m' := sys.m, TakeRun(sys.m).0;
    MergedIsSorted(TodoOf(m.statuses, m.floor), TodoOf(m.diffs, m.floor), added, Pending(m'.statuses, m.floor), Pending(m'.diffs, m.floor));
  }
}
