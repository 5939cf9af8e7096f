/**
 Loss bookkeeping: the resync flag is lowered only by an install that covers every loss
 recorded so far, also when losses happen while an install is in flight or its replay fails.
 */
module Losses {
  import opened Types
  import opened Pairing
  import opened StateMachine
  import opened Install

  /**
   The listener, the heights of all events that were lost and no install has covered since, the
   highest of those that arrived past a dead cache (0 for none), the last install's height, and
   whether a snapshot is being fetched or installed.
   */
  datatype Watch = Watch(l: Listener, uncovered: set<nat>, dropTop: nat, lastInstall: nat, fetching: bool)

  datatype Move =
    | Deliver(batch: EventBatch, now: nat, tidy: Option<Tidying>, halfAt: nat)  // a half lost by maintenance is from `halfAt`
    | LoseAt(at: nat)                                                           // events at this height are gone
    | Fetch(head: nat)                                                          // a fetch starts with the node's head here
    | CommitAt(next: Replay, height: nat, now: nat, failedAt: nat)              // a failing replay fails at `failedAt`
    | GiveUpAt(next: Replay, height: nat, now: nat, failedAt: nat)

  function Heights(bs: seq<EventBatch>): set<nat> {
    set i | 0 <= i < |bs| :: bs[i].height
  }

  /** Batches that a delivery makes the cache drop. */
  function Overflowed(l: Listener, b: EventBatch): set<nat> {
    if ForReplay(b) && l.cache.Some? && l.cachedEvents + EventsLen(b) > l.cap then Heights(l.cache.value) + {b.height} else {}
  }

  /** With the cache dead and a book still to come, a batch reaches no cache and at most the outgoing book. */
  predicate Dropped(l: Listener, fetching: bool, b: EventBatch) {
    ForReplay(b) && l.cache.None? && (l.book.None? || fetching)
  }

  predicate FailsLive(l: Listener, b: EventBatch, now: nat) {
    l.book.Some? && !ApplyAll(l.book.value, StepsOf(b, now)).ok
  }

  function OneIf(lost: bool, h: nat): set<nat> {
    if lost then {h} else {}
  }

  /** What applying to the live book loses: a batch that does not apply, and a half dropped by maintenance. */
  function LostLive(l: Listener, b: EventBatch, now: nat, tidy: Option<Tidying>, halfAt: nat): set<nat> {
    OneIf(FailsLive(l, b, now), b.height) + OneIf(l.book.Some? && LosesHalves(tidy), halfAt)
  }

  function LostBy(w: Watch, b: EventBatch, now: nat, tidy: Option<Tidying>, halfAt: nat): set<nat> {
    if EventsLen(b) > MAX_EVENTS_PER_BATCH then {b.height}
    else (Overflowed(w.l, b) + OneIf(Dropped(w.l, w.fetching, b), b.height)) + LostLive(w.l, b, now, tidy, halfAt)
  }

  function Covers(l: Listener, height: nat): nat {
    Max(l.installCovers, height)
  }

  function StillUncovered(uncovered: set<nat>, covers: nat): set<nat> {
    set x | x in uncovered && x > covers
  }

  predicate ReplayFails(l: Listener, next: Replay, height: nat, now: nat) {
    ReplayAll(next, Residue(l), height, now).failed
  }

  /** A commit that covers the highest dropped batch covers them all. */
  function TopAbove(dropTop: nat, covers: nat): nat {
    if dropTop > covers then dropTop else 0
  }

  function Step(w: Watch, m: Move): Watch {
    match m
    case Deliver(b, now, tidy, halfAt) =>
      w.(l := ApplyEventBatch(w.l, b, now, tidy), uncovered := w.uncovered + LostBy(w, b, now, tidy, halfAt),
         dropTop := if Dropped(w.l, w.fetching, b) then Max(w.dropTop, b.height) else w.dropTop)
    case LoseAt(at) => w.(l := MarkDesynced(w.l), uncovered := w.uncovered + {at})
    case Fetch(head) => w.(l := BeginCaching(w.l).(installCovers := head), fetching := true)
    case CommitAt(next, height, now, failedAt) =>
      Watch(FinishInstall(w.l, next, height, now),
            StillUncovered(w.uncovered, Covers(w.l, height)) + OneIf(ReplayFails(w.l, next, height, now), failedAt),
            TopAbove(w.dropTop, Covers(w.l, height)), height, false)
    case GiveUpAt(next, height, now, failedAt) =>
      var l := w.l.(cache := None, cachedEvents := 0);
      Watch(MarkDesynced(FinishInstall(l, next, height, now)),
            (StillUncovered(w.uncovered, Covers(w.l, height)) + OneIf(ReplayFails(l, next, height, now), failedAt))
              + Heights(Residue(w.l)),
            TopAbove(w.dropTop, Covers(w.l, height)), height, false)
  }

  // ----- what runs are considered -----

  /** Heights leave room for the margin of 100 blocks. */
  predicate InRange(h: nat) {
    h + 100 < U64_MAX
  }

  /** The replacement book comes from a snapshot at this height and batches the listener has seen. */
  predicate BuiltFor(l: Listener, next: Replay, height: nat) {
    height <= next.state.height <= Max(height, l.lastSeen)
  }

  /**
   A loss from elsewhere is marked once a height is known. A commit that would lower the flag covers
   every batch dropped past a dead cache; with none dropped that says nothing.
   */
  predicate Legal(w: Watch, m: Move) {
    match m
    case Deliver(b, _, _, halfAt) => 0 < b.height && InRange(b.height) && halfAt <= Max(w.l.lastSeen, b.height)
    case LoseAt(at) => 0 < Observed(w.l) && at <= Observed(w.l) + 100
    case Fetch(_) => true
    case CommitAt(next, height, now, failedAt) =>
      && LegalInstall(w, next, height, failedAt)
      && (ReplayFails(w.l, next, height, now) || w.l.maxLoss > Covers(w.l, height) || w.dropTop <= Covers(w.l, height))
    case GiveUpAt(next, height, _, failedAt) => LegalInstall(w, next, height, failedAt)
  }

  predicate LegalInstall(w: Watch, next: Replay, height: nat, failedAt: nat) {
    && 0 < height && w.lastInstall <= height && InRange(height) && BuiltFor(w.l, next, height)
    && failedAt <= Max(w.l.lastSeen, height)
  }

  predicate LegalRun(w: Watch, ms: seq<Move>)
    decreases |ms|
  {
    ms == [] || (Legal(w, ms[0]) && LegalRun(Step(w, ms[0]), ms[1..]))
  }

  function Run(w: Watch, ms: seq<Move>): Watch
    decreases |ms|
  {
    if ms == [] then w else Run(Step(w, ms[0]), ms[1..])
  }

  // ----- the invariant -----

  /** Losses keep the flag up, and lie within the mark or below the highest dropped batch, itself one of them. */
  ghost predicate Bounded(l: Listener, uncovered: set<nat>, dropTop: nat) {
    && (uncovered != {} ==> l.needsResync)
    && (forall x :: x in uncovered ==> x <= Max(l.maxLoss, dropTop))
    && dropTop <= l.lastSeen
    && (dropTop > 0 ==> dropTop in uncovered)
  }

  /** The heights the listener knows are in order. */
  ghost predicate HeightsKnown(l: Listener, lastInstall: nat) {
    && !l.tolerateDrift
    && InRange(l.lastSeen) && InRange(lastInstall)
    && (l.book.Some? ==> l.book.value.height <= Max(l.lastSeen, lastInstall))
    && lastInstall <= Observed(l)
    && (forall x :: x in Heights(Residue(l)) ==> x <= l.lastSeen)
    && l.maxLoss <= Observed(l) + LOSS_HEIGHT_MARGIN
    && l.urgent == l.needsResync
  }

  /** A cache is dead while a book is still to come only after an overflow, which has marked the book. */
  ghost predicate DeadIsMarked(l: Listener, fetching: bool) {
    l.cache.None? && (l.book.None? || fetching) ==> l.needsResync
  }

  ghost predicate WatchInv(w: Watch) {
    Bounded(w.l, w.uncovered, w.dropTop) && HeightsKnown(w.l, w.lastInstall) && DeadIsMarked(w.l, w.fetching)
  }

  // ----- heights of books -----

  lemma {:induction false} EventsKeepHeight(s: State, steps: seq<Pairing.Step>)
    requires forall i :: 0 <= i < |steps| ==> steps[i].OneStatus? || steps[i].OneDiff?
    ensures ApplyAll(s, steps).state.height == s.height
    decreases |steps|
  {
    if steps != [] {
      assert steps[0].OneStatus? || steps[0].OneDiff?;
      EventKeepsHeight(s, steps[0]);
      if Apply(s, steps[0]).ok {
        EventsKeepHeight(Apply(s, steps[0]).state, steps[1..]);
      }
    }
  }

  lemma EventKeepsHeight(s: State, step: Pairing.Step)
    requires step.OneStatus? || step.OneDiff?
    ensures Apply(s, step).state.height == s.height
  {
  }

  lemma {:induction false} StatusStepsAreEvents(events: seq<Status>, now: nat)
    ensures forall i :: 0 <= i < |StatusSteps(events, now)| ==> StatusSteps(events, now)[i].OneStatus?
  {
    if events != [] {
      StatusStepsAreEvents(events[1..], now);
    }
  }

  lemma {:induction false} DiffStepsAreEvents(events: seq<Diff>, now: nat, h: nat)
    ensures forall i :: 0 <= i < |DiffSteps(events, now, h)| ==> DiffSteps(events, now, h)[i].OneDiff?
  {
    if events != [] {
      DiffStepsAreEvents(events[1..], now, h);
    }
  }

  /** A batch raises the book to its height, whether or not it applies. */
  lemma BatchRaisesHeight(s: State, b: EventBatch, now: nat)
    ensures ApplyAll(s, StepsOf(b, now)).state.height == if b.Fills? then s.height else Max(s.height, b.height)
  {
    match b
    case Orders(h, time, statuses) =>
      FirstStep(s, BeginStatuses(h, time), StatusSteps(statuses, now));
      StatusStepsAreEvents(statuses, now);
      EventsKeepHeight(NoteHeight(s, h, time), StatusSteps(statuses, now));
    case BookDiffs(h, time, diffs) =>
      FirstStep(s, BeginDiffs(h, time), DiffSteps(diffs, now, h));
      DiffStepsAreEvents(diffs, now, h);
      PruneOnlyZeroed(s, h);
      EventsKeepHeight(NoteHeight(Prune(s, h), h, time), DiffSteps(diffs, now, h));
    case Fills(_, _) =>
  }

  lemma {:induction false} ReplayRaisesHeight(r: Replay, bs: seq<EventBatch>, height: nat, now: nat, top: nat)
    requires r.state.height <= top && forall i :: 0 <= i < |bs| ==> bs[i].height <= top
    ensures r.state.height <= ReplayAll(r, bs, height, now).state.height <= top
    decreases |bs|
  {
    if bs != [] {
      assert bs[0].height <= top;
      BatchRaisesHeight(r.state, bs[0], now);
      ReplayRaisesHeight(ReplayAbove(r, bs[0], height, now), bs[1..], height, now, top);
    }
  }

  // ----- every move keeps the invariant -----

  lemma MarkKeepsInv(l: Listener, uncovered: set<nat>, dropTop: nat, lastInstall: nat, lost: set<nat>)
    requires Bounded(l, uncovered, dropTop) && HeightsKnown(l, lastInstall) && 0 < Observed(l)
    requires forall x :: x in lost ==> x <= Observed(l) + LOSS_HEIGHT_MARGIN
    ensures Bounded(MarkDesynced(l), uncovered + lost, dropTop) && HeightsKnown(MarkDesynced(l), lastInstall)
  {
    assert InRange(Observed(l));
    assert Residue(MarkDesynced(l)) == Residue(l);
  }

  /** A mark bounds everything within its margin, whatever was bounded before. */
  lemma MarkBoundsAll(l: Listener, uncovered: set<nat>, dropTop: nat, lastInstall: nat)
    requires HeightsKnown(l, lastInstall) && 0 < Observed(l) && dropTop <= l.lastSeen && (dropTop > 0 ==> dropTop in uncovered)
    requires forall x :: x in uncovered ==> x <= Observed(l) + LOSS_HEIGHT_MARGIN
    ensures Bounded(MarkDesynced(l), uncovered, dropTop) && HeightsKnown(MarkDesynced(l), lastInstall) && MarkDesynced(l).needsResync
  {
    assert InRange(Observed(l));
    assert Residue(MarkDesynced(l)) == Residue(l);
  }

  lemma SeeKeepsInv(l: Listener, uncovered: set<nat>, dropTop: nat, lastInstall: nat, h: nat)
    requires Bounded(l, uncovered, dropTop) && HeightsKnown(l, lastInstall) && InRange(h)
    ensures var l1 := l.(lastSeen := Max(l.lastSeen, h)); Bounded(l1, uncovered, dropTop) && HeightsKnown(l1, lastInstall)
  {
    var l1 := l.(lastSeen := Max(l.lastSeen, h));
    assert Residue(l1) == Residue(l);
  }

  function DropTop(l: Listener, fetching: bool, b: EventBatch, dropTop: nat): nat {
    if Dropped(l, fetching, b) then Max(dropTop, b.height) else dropTop
  }

  lemma CacheKeepsInv(l: Listener, uncovered: set<nat>, dropTop: nat, lastInstall: nat, fetching: bool, b: EventBatch)
    requires Bounded(l, uncovered, dropTop) && HeightsKnown(l, lastInstall) && DeadIsMarked(l, fetching)
    requires 0 < b.height <= l.lastSeen && EventsLen(b) <= MAX_EVENTS_PER_BATCH
    ensures var l2 := CacheForReplay(l, b);
            && Bounded(l2, uncovered + (Overflowed(l, b) + OneIf(Dropped(l, fetching, b), b.height)), DropTop(l, fetching, b, dropTop))
            && HeightsKnown(l2, lastInstall) && DeadIsMarked(l2, fetching)
  {
    var lost := Overflowed(l, b) + OneIf(Dropped(l, fetching, b), b.height);
    if ForReplay(b) && l.cache.Some? {
      if l.cachedEvents + EventsLen(b) > l.cap {
        var dead := l.(cache := None, cachedEvents := 0);
        assert Residue(l) == l.cache.value;
        assert lost == Overflowed(l, b);
        MarkKeepsInv(dead, uncovered, dropTop, lastInstall, lost);
      } else {
        HeightsSnoc(l.cache.value, b);
        assert Residue(l) == l.cache.value && Residue(CacheForReplay(l, b)) == l.cache.value + [b];
        assert uncovered + lost == uncovered;
      }
    } else {
      assert CacheForReplay(l, b) == l;
      assert !Dropped(l, fetching, b) ==> uncovered + lost == uncovered;
    }
  }

  lemma HeightsSnoc(bs: seq<EventBatch>, b: EventBatch)
    ensures Heights(bs + [b]) == Heights(bs) + {b.height}
  {
    var all := bs + [b];
    forall x
      ensures x in Heights(all) <==> x in Heights(bs) + {b.height}
    {
      if x in Heights(bs) {
        var i :| 0 <= i < |bs| && bs[i].height == x;
        assert all[i].height == x;
      }
      if x == b.height {
        assert all[|bs|].height == x;
      }
    }
  }

  lemma LiveKeepsInv(
    l: Listener, uncovered: set<nat>, dropTop: nat, lastInstall: nat, fetching: bool,
    b: EventBatch, now: nat, tidy: Option<Tidying>, halfAt: nat)
    requires Bounded(l, uncovered, dropTop) && HeightsKnown(l, lastInstall) && DeadIsMarked(l, fetching)
    requires 0 < b.height <= l.lastSeen && halfAt <= l.lastSeen
    ensures var l' := ApplyLive(l, b, now, tidy);
            && Bounded(l', uncovered + LostLive(l, b, now, tidy, halfAt), dropTop)
            && HeightsKnown(l', lastInstall) && DeadIsMarked(l', fetching)
  {
    var lost := LostLive(l, b, now, tidy, halfAt);
    if l.book.Some? {
      BatchRaisesHeight(l.book.value, b, now);
      var s := Applied(l.book.value, b, now);
      var l1 := l.(book := Some(if tidy.Some? then Tidied(s, tidy.value) else s));
      assert Residue(l1) == Residue(l);
      assert Bounded(l1, uncovered, dropTop) && HeightsKnown(l1, lastInstall);
      if FailsLive(l, b, now) || LosesHalves(tidy) {
        MarkKeepsInv(l1, uncovered, dropTop, lastInstall, lost);
      } else {
        assert uncovered + lost == uncovered;
      }
    } else {
      assert uncovered + lost == uncovered;
    }
  }

  /** Delivering is noting the height, then caching, then applying; the losses of both add up. */
  lemma DeliverInStages(w: Watch, b: EventBatch, now: nat, tidy: Option<Tidying>, halfAt: nat, l1: Listener)
    requires EventsLen(b) <= MAX_EVENTS_PER_BATCH && l1 == w.l.(lastSeen := Max(w.l.lastSeen, b.height))
    ensures var l2, w' := CacheForReplay(l1, b), Step(w, Deliver(b, now, tidy, halfAt));
            && l2.lastSeen == l1.lastSeen
            && w'.l == ApplyLive(l2, b, now, tidy) && w'.lastInstall == w.lastInstall && w'.fetching == w.fetching
            && w'.dropTop == DropTop(l1, w.fetching, b, w.dropTop)
            && w'.uncovered == (w.uncovered + (Overflowed(l1, b) + OneIf(Dropped(l1, w.fetching, b), b.height)))
                               + LostLive(l2, b, now, tidy, halfAt)
  {
    var l2 := CacheForReplay(l1, b);
    assert l2.book == w.l.book;
    assert LostLive(l2, b, now, tidy, halfAt) == LostLive(w.l, b, now, tidy, halfAt);
    UnionRegroups(w.uncovered, Overflowed(l1, b) + OneIf(Dropped(l1, w.fetching, b), b.height), LostLive(w.l, b, now, tidy, halfAt));
  }

  lemma UnionRegroups(a: set<nat>, b: set<nat>, c: set<nat>)
    ensures a + (b + c) == (a + b) + c
  {
  }

  lemma DeliverKeepsInv(w: Watch, b: EventBatch, now: nat, tidy: Option<Tidying>, halfAt: nat)
    requires WatchInv(w) && Legal(w, Deliver(b, now, tidy, halfAt))
    ensures WatchInv(Step(w, Deliver(b, now, tidy, halfAt)))
  {
    var l1 := w.l.(lastSeen := Max(w.l.lastSeen, b.height));
    SeeKeepsInv(w.l, w.uncovered, w.dropTop, w.lastInstall, b.height);
    if EventsLen(b) > MAX_EVENTS_PER_BATCH {
      MarkKeepsInv(l1, w.uncovered, w.dropTop, w.lastInstall, {b.height});
    } else {
      CacheKeepsInv(l1, w.uncovered, w.dropTop, w.lastInstall, w.fetching, b);
      DeliverInStages(w, b, now, tidy, halfAt, l1);
      LiveKeepsInv(CacheForReplay(l1, b), w.uncovered + (Overflowed(l1, b) + OneIf(Dropped(l1, w.fetching, b), b.height)),
                   DropTop(l1, w.fetching, b, w.dropTop), w.lastInstall, w.fetching, b, now, tidy, halfAt);
    }
  }

  /** The book a commit installs is as high as the snapshot, and as anything known before. */
  lemma InstallRaisesHeight(l: Listener, lastInstall: nat, next: Replay, height: nat, now: nat)
    requires HeightsKnown(l, lastInstall) && lastInstall <= height && BuiltFor(l, next, height)
    ensures height <= ReplayAll(next, Residue(l), height, now).state.height <= Max(height, l.lastSeen)
  {
    forall i | 0 <= i < |Residue(l)|
      ensures Residue(l)[i].height <= Max(height, l.lastSeen)
    {
      assert Residue(l)[i].height in Heights(Residue(l));
    }
    ReplayRaisesHeight(next, Residue(l), height, now, Max(height, l.lastSeen));
  }

  lemma InstallKeepsHeights(l: Listener, lastInstall: nat, next: Replay, height: nat, now: nat)
    requires HeightsKnown(l, lastInstall) && 0 < height && lastInstall <= height && InRange(height) && BuiltFor(l, next, height)
    ensures var l' := FinishInstall(l, next, height, now);
            && HeightsKnown(l', height) && 0 < Observed(l') && Observed(l) <= Observed(l')
            && l'.cache.None? && l'.book.Some? && l'.lastSeen == l.lastSeen
            && (ReplayFails(l, next, height, now) ==> l'.needsResync && l'.maxLoss == Observed(l') + LOSS_HEIGHT_MARGIN)
            && (!ReplayFails(l, next, height, now) ==> (l'.needsResync <==> l.maxLoss > Covers(l, height)))
            && (!ReplayFails(l, next, height, now) && l.maxLoss > Covers(l, height) ==> l'.maxLoss == l.maxLoss)
  {
    InstallRaisesHeight(l, lastInstall, next, height, now);
    var l' := FinishInstall(l, next, height, now);
    assert Residue(l') == [];
    assert l.maxLoss < U64_MAX;
  }

  lemma CommitKeepsInv(w: Watch, next: Replay, height: nat, now: nat, failedAt: nat)
    requires WatchInv(w) && Legal(w, CommitAt(next, height, now, failedAt))
    ensures WatchInv(Step(w, CommitAt(next, height, now, failedAt)))
  {
    var l' := FinishInstall(w.l, next, height, now);
    var left := StillUncovered(w.uncovered, Covers(w.l, height));
    InstallKeepsHeights(w.l, w.lastInstall, next, height, now);
    if ReplayFails(w.l, next, height, now) {
      assert forall x :: x in left + {failedAt} ==> x <= l'.maxLoss;
    } else {
      assert left + {} == left;
      assert w.l.maxLoss <= Covers(w.l, height) ==> left == {};
    }
  }

  lemma GiveUpKeepsInv(w: Watch, next: Replay, height: nat, now: nat, failedAt: nat)
    requires WatchInv(w) && Legal(w, GiveUpAt(next, height, now, failedAt))
    ensures WatchInv(Step(w, GiveUpAt(next, height, now, failedAt)))
  {
    var l := w.l.(cache := None, cachedEvents := 0);
    var w' := Step(w, GiveUpAt(next, height, now, failedAt));
    InstallKeepsHeights(l, w.lastInstall, next, height, now);
    var l' := FinishInstall(l, next, height, now);
    assert Observed(l) == Observed(w.l);
    forall x | x in w'.uncovered
      ensures x <= Observed(l') + LOSS_HEIGHT_MARGIN
    {
      assert x in w.uncovered || x == failedAt || x in Heights(Residue(w.l));
    }
    MarkBoundsAll(l', w'.uncovered, w'.dropTop, height);
  }

  lemma FetchKeepsInv(w: Watch, head: nat)
    requires WatchInv(w)
    ensures WatchInv(Step(w, Fetch(head)))
  {
    assert Residue(Step(w, Fetch(head)).l) == Residue(w.l);
  }

  lemma StepKeepsInv(w: Watch, m: Move)
    requires WatchInv(w) && Legal(w, m)
    ensures WatchInv(Step(w, m))
  {
    match m
    case Deliver(b, now, tidy, halfAt) => DeliverKeepsInv(w, b, now, tidy, halfAt);
    case LoseAt(at) => MarkKeepsInv(w.l, w.uncovered, w.dropTop, w.lastInstall, {at});
    case Fetch(head) => FetchKeepsInv(w, head);
    case CommitAt(next, height, now, failedAt) => CommitKeepsInv(w, next, height, now, failedAt);
    case GiveUpAt(next, height, now, failedAt) => GiveUpKeepsInv(w, next, height, now, failedAt);
  }

  lemma {:induction false} RunKeepsWatchInv(w: Watch, ms: seq<Move>)
    requires WatchInv(w) && LegalRun(w, ms)
    ensures WatchInv(Run(w, ms))
    decreases |ms|
  {
    if ms != [] {
      StepKeepsInv(w, ms[0]);
      RunKeepsWatchInv(Step(w, ms[0]), ms[1..]);
    }
  }

  function Begin(cap: nat): Watch {
    Watch(NewListener(cap, false), {}, 0, 0, false)
  }

  /** No uncovered loss is forgotten: with the flag down, every past loss was covered by a later install. */
  lemma NoLossIsForgotten(cap: nat, ms: seq<Move>)
    requires LegalRun(Begin(cap), ms)
    ensures var w := Run(Begin(cap), ms); (!w.l.needsResync ==> w.uncovered == {}) && w.l.urgent == w.l.needsResync
  {
    RunKeepsWatchInv(Begin(cap), ms);
  }

  // ----- past a dead cache -----

  /** A loss is forgotten: the flag is down although something lost was never covered. */
  ghost predicate Forgets(w: Watch) {
    !w.l.needsResync && w.uncovered != {}
  }

  /** Nothing marks a batch that arrives past a dead cache: as far as marks go the listener does not notice. */
  lemma DropIsNotMarked(l: Listener, fetching: bool, b: EventBatch, now: nat, tidy: Option<Tidying>)
    requires Dropped(l, fetching, b) && !FailsLive(l, b, now) && !LosesHalves(tidy)
    ensures var l' := ApplyEventBatch(l, b, now, tidy);
            l'.needsResync == l.needsResync && l'.urgent == l.urgent && l'.maxLoss == l.maxLoss && l'.cache.None?
  {
    ApplyLiveKeepsCache(l.(lastSeen := Max(l.lastSeen, b.height)), b, now, tidy);
  }

  lemma CommitForgetsIff(w: Watch, next: Replay, height: nat, now: nat)
    requires WatchInv(w) && LegalInstall(w, next, height, 0) && !ReplayFails(w.l, next, height, now)
    ensures Forgets(Step(w, CommitAt(next, height, now, 0))) <==> w.l.maxLoss <= Covers(w.l, height) < w.dropTop
  {
    var w' := Step(w, CommitAt(next, height, now, 0));
    InstallKeepsHeights(w.l, w.lastInstall, next, height, now);
    assert w'.uncovered == StillUncovered(w.uncovered, Covers(w.l, height));
    assert w.dropTop > Covers(w.l, height) ==> w.dropTop in w'.uncovered;
  }

  /**
   Exactly when a loss is forgotten: after every legal run, an install whose replay does not fail
   forgets one if and only if what it covers reaches the mark, but not the highest batch that was
   dropped past a dead cache.
   */
  lemma LossIsForgottenIff(cap: nat, ms: seq<Move>, next: Replay, height: nat, now: nat)
    requires LegalRun(Begin(cap), ms)
    requires var w := Run(Begin(cap), ms); LegalInstall(w, next, height, 0) && !ReplayFails(w.l, next, height, now)
    ensures var w := Run(Begin(cap), ms);
            Forgets(Step(w, CommitAt(next, height, now, 0))) <==> w.l.maxLoss <= Covers(w.l, height) < w.dropTop
  {
    RunKeepsWatchInv(Begin(cap), ms);
    CommitForgetsIff(Run(Begin(cap), ms), next, height, now);
  }

  /** With nothing dropped past a dead cache, every commit of a replacement book is legal: the plain statement. */
  lemma WithoutDropsAnyInstallIsLegal(w: Watch, next: Replay, height: nat, now: nat, failedAt: nat)
    requires w.dropTop == 0 && LegalInstall(w, next, height, failedAt)
    ensures Legal(w, CommitAt(next, height, now, failedAt))
  {
  }

  /**
   Such a run: the cache overflows during a fetch, a batch arrives past it, and an install that covers
   the overflow but not that batch lowers the flag. The book is the bare snapshot.
   */
  lemma DeadCacheCanForget(s: State, st: Status)
    requires s.height == 500
    ensures var one := (h: nat) => Orders(h, 0, [st]);
            var start := [Deliver(one(10), 0, None, 0), Fetch(1000), Deliver(one(20), 0, None, 0), Deliver(one(2000), 0, None, 0)];
            var commit := CommitAt(Replay(s, 0, false), 500, 0, 0);
            var w := Step(Run(Begin(0), start), commit);
            && LegalRun(Begin(0), start) && LegalInstall(Run(Begin(0), start), commit.next, 500, 0)
            && Run(Begin(0), start).dropTop == 2000 && Forgets(w) && w.uncovered == {2000} && w.l.book == Some(s.(fallbacks := 0))
  {
    var one := (h: nat) => Orders(h, 0, [st]);
    var start := [Deliver(one(10), 0, None, 0), Fetch(1000), Deliver(one(20), 0, None, 0), Deliver(one(2000), 0, None, 0)];
    OverflowThenDrop(st, Begin(0));
    FourSteps(Begin(0), start);
    CommitOverDrop(s, Run(Begin(0), start));
  }

  lemma CommitOverDrop(s: State, w: Watch)
    requires s.height == 500 && w.l == Listener(None, None, 0, 0, true, true, 120, 1000, 2000, false)
    requires w.uncovered == {10, 20, 2000} && w.lastInstall == 0
    ensures var w' := Step(w, CommitAt(Replay(s, 0, false), 500, 0, 0));
            && LegalInstall(w, Replay(s, 0, false), 500, 0)
            && !w'.l.needsResync && w'.uncovered == {2000} && w'.l.book == Some(s.(fallbacks := 0))
  {
    var r := Replay(s, 0, false);
    assert ReplayAll(r, [], 500, 0) == r;
    assert StillUncovered(w.uncovered, 1000) == {2000};
  }

  lemma OverflowThenDrop(st: Status, w0: Watch)
    requires w0 == Begin(0)
    ensures var one := (h: nat) => Orders(h, 0, [st]);
            var w1 := Step(w0, Deliver(one(10), 0, None, 0));
            var w2 := Step(w1, Fetch(1000));
            var w3 := Step(w2, Deliver(one(20), 0, None, 0));
            var w4 := Step(w3, Deliver(one(2000), 0, None, 0));
            && Legal(w0, Deliver(one(10), 0, None, 0)) && Legal(w1, Fetch(1000))
            && Legal(w2, Deliver(one(20), 0, None, 0)) && Legal(w3, Deliver(one(2000), 0, None, 0))
            && w4.uncovered == {10, 20, 2000} && w4.dropTop == 2000
            && w4.l == Listener(None, None, 0, 0, true, true, 120, 1000, 2000, false) && w4.lastInstall == 0
  {
    var one := (h: nat) => Orders(h, 0, [st]);
    var w1 := Step(w0, Deliver(one(10), 0, None, 0));
    OverflowIs(w0, one(10));
    assert w1.uncovered == {10} && w1.l == Listener(None, None, 0, 0, true, true, 110, 0, 10, false);
    var w2 := Step(w1, Fetch(1000));
    var w3 := Step(w2, Deliver(one(20), 0, None, 0));
    OverflowIs(w2, one(20));
    assert w3.uncovered == {10, 20} && w3.l == Listener(None, None, 0, 0, true, true, 120, 1000, 20, false);
    assert Dropped(w3.l, w3.fetching, one(2000));
  }

  /** A batch that does not fit an empty cache, before there is a book. */
  lemma OverflowIs(w: Watch, b: EventBatch)
    requires ForReplay(b) && w.l.book.None? && w.l.cache == Some([]) && w.l.cachedEvents + EventsLen(b) > w.l.cap
    ensures var w' := Step(w, Deliver(b, 0, None, 0));
            && w'.uncovered == w.uncovered + {b.height}
            && w'.l == MarkDesynced(w.l.(lastSeen := Max(w.l.lastSeen, b.height), cache := None, cachedEvents := 0))
            && w'.lastInstall == w.lastInstall && w'.fetching == w.fetching && w'.dropTop == w.dropTop
  {
    assert Heights([]) == {};
    assert Overflowed(w.l, b) == {b.height};
  }

  lemma FourSteps(w: Watch, ms: seq<Move>)
    requires |ms| == 4
    ensures Run(w, ms) == Step(Step(Step(Step(w, ms[0]), ms[1]), ms[2]), ms[3])
    ensures LegalRun(w, ms) <==> (
      && Legal(w, ms[0]) && Legal(Step(w, ms[0]), ms[1]) && Legal(Step(Step(w, ms[0]), ms[1]), ms[2])
      && Legal(Step(Step(Step(w, ms[0]), ms[1]), ms[2]), ms[3]))
  {
    var a, b, c := ms[1..], ms[2..], ms[3..];
    assert a[0] == ms[1] && a[1..] == b && b[0] == ms[2] && b[1..] == c && c[0] == ms[3] && c[1..] == [];
    var w1 := Step(w, ms[0]);
    var w2 := Step(w1, ms[1]);
    var w3 := Step(w2, ms[2]);
    assert Run(w3, c) == Run(Step(w3, ms[3]), []) && (LegalRun(w3, c) <==> Legal(w3, ms[3]));
    assert Run(w2, b) == Run(w3, c) && (LegalRun(w2, b) <==> Legal(w2, ms[2]) && LegalRun(w3, c));
    assert Run(w1, a) == Run(w2, b) && (LegalRun(w1, a) <==> Legal(w1, ms[1]) && LegalRun(w2, b));
  }

  // ----- the unbounded mark -----

  lemma {:induction false} ReplaySkipsBelow(r: Replay, bs: seq<EventBatch>, height: nat, now: nat)
    requires forall i :: 0 <= i < |bs| ==> bs[i].height <= height
    ensures ReplayAll(r, bs, height, now) == r
    decreases |bs|
  {
    if bs != [] {
      assert bs[0].height <= height;
      ReplaySkipsBelow(r, bs[1..], height, now);
    }
  }

  /**
   Why a loss may be marked only once a height is known: from any listener that has observed none, a loss
   above height 1 is forgotten by a continuation that is legal throughout. Its unbounded mark is
   downgraded to the highest height seen, without the margin every other mark carries.
   */
  lemma UnobservedLossCanBeForgotten(w: Watch, at: nat, s: State)
    requires WatchInv(w) && Observed(w.l) == 0 && 1 < at && s.height == 1
    ensures var install := CommitAt(Replay(s, 0, false), 1, 0, 0);
            var rest := [Fetch(0), install, Fetch(0), install];
            var marked := Step(w, LoseAt(at));
            LegalRun(marked, rest) && Forgets(Run(marked, rest)) && at in Run(marked, rest).uncovered
  {
    var r := Replay(s, 0, false);
    var install := CommitAt(r, 1, 0, 0);
    var rest := [Fetch(0), install, Fetch(0), install];
    var m0 := Step(w, LoseAt(at));
    FourSteps(m0, rest);
    var m1 := Step(m0, Fetch(0));
    var m2 := Step(m1, install);
    var m3 := Step(m2, Fetch(0));
    var m4 := Step(m3, install);
    assert m1.l.lastSeen == 0 && m1.l.maxLoss == U64_MAX && Residue(m1.l) == Residue(w.l) && at in m1.uncovered;
    assert forall i :: 0 <= i < |Residue(w.l)| ==> Residue(w.l)[i].height in Heights(Residue(w.l));
    ReplaySkipsBelow(r, Residue(m1.l), 1, 0);
    assert m2.l.maxLoss == 1 && m2.l.needsResync && at in m2.uncovered && m2.l.cache.None?;
    ReplaySkipsBelow(r, [], 1, 0);
    assert Residue(m3.l) == [] && at in m3.uncovered && m3.l.maxLoss == 1;
    assert !m4.l.needsResync && at in m4.uncovered;
  }
}
