/** What one batch does to the listener's marks and cache: which batches raise the flag, how far the mark reaches, and what is cached. */
module Marks {
  import opened Types
  import opened Pairing
  import opened StateMachine
  import opened Install
  import opened Handoff
  import Waiting

  /** Neither cached nor applied: nothing of it reaches a book. */
  predicate Oversize(b: EventBatch) {
    match b
    case Orders(_, _, statuses) => |statuses| > 100_000
    case BookDiffs(_, _, diffs) => |diffs| > 100_000
    case Fills(_, fills) => fills > 100_000
  }

  /** It does not fit the cache with what is there. */
  predicate Overfills(l: Listener, b: EventBatch) {
    match b
    case Orders(_, _, statuses) => l.cache.Some? && l.cachedEvents + |statuses| > l.cap
    case BookDiffs(_, _, diffs) => l.cache.Some? && l.cachedEvents + |diffs| > l.cap
    case Fills(_, _) => false
  }

  /** A step of it is rejected by the live book, or the maintenance pass that comes with it drops what may have mattered. */
  predicate HurtsLive(l: Listener, b: EventBatch, now: nat, tidy: Option<Tidying>) {
    l.book.Some? && (!Accepted(l.book.value, StepsOf(b, now)) || (tidy.Some? && tidy.value.lost))
  }

  /** The highest block of the book, the streams and this batch. */
  function Highest(l: Listener, b: EventBatch): nat {
    Max(Max(l.lastSeen, b.height), if l.book.Some? then l.book.value.height else 0)
  }

  datatype Flags = Flags(needsResync: bool, urgent: bool, maxLoss: nat)

  function FlagsOf(l: Listener): Flags {
    Flags(l.needsResync, l.urgent, l.maxLoss)
  }

  /** The flag is up, and the mark reaches 100 blocks past what has been seen, or everywhere when nothing has. */
  function Raised(l: Listener, b: EventBatch): Flags {
    Flags(true, true, Max(l.maxLoss, if Highest(l, b) == 0 then U64_MAX else Min(Highest(l, b) + 100, U64_MAX)))
  }

  /**
   One batch raises the flag exactly when drift is not tolerated and the batch is oversize, overfills the
   cache, or hurts the live book; the mark then reaches past everything seen; otherwise the flags stay.
   */
  lemma BatchMarksIff(l: Listener, b: EventBatch, now: nat, tidy: Option<Tidying>)
    ensures var l' := ApplyEventBatch(l, b, now, tidy);
            var lost := Oversize(b) || Overfills(l, b) || HurtsLive(l, b, now, tidy);
            && FlagsOf(l') == (if lost && !l.tolerateDrift then Raised(l, b) else FlagsOf(l))
            && l'.lastSeen == Max(l.lastSeen, b.height) && l'.installCovers == l.installCovers
  {
    var l1 := l.(lastSeen := Max(l.lastSeen, b.height));
    SeenIsNoted(l, l1, b, now, tidy);
    if Oversize(b) {
      OversizeMarks(l1, b);
    } else {
      FittingMarksIff(l1, b, now, tidy);
    }
  }

  lemma SeenIsNoted(l: Listener, l1: Listener, b: EventBatch, now: nat, tidy: Option<Tidying>)
    requires l1 == l.(lastSeen := Max(l.lastSeen, b.height))
    ensures FlagsOf(l1) == FlagsOf(l) && Raised(l1, b) == Raised(l, b)
    ensures Overfills(l1, b) == Overfills(l, b) && HurtsLive(l1, b, now, tidy) == HurtsLive(l, b, now, tidy)
    ensures (EventsLen(b) > MAX_EVENTS_PER_BATCH) == Oversize(b)
  {
  }

  lemma OversizeMarks(l: Listener, b: EventBatch)
    requires b.height <= l.lastSeen
    ensures var l' := MarkDesynced(l);
            FlagsOf(l') == (if l.tolerateDrift then FlagsOf(l) else Raised(l, b)) && l'.lastSeen == l.lastSeen && l'.installCovers == l.installCovers
  {
  }

  lemma FittingMarksIff(l: Listener, b: EventBatch, now: nat, tidy: Option<Tidying>)
    requires b.height <= l.lastSeen
    ensures var l' := ApplyLive(CacheForReplay(l, b), b, now, tidy);
            && FlagsOf(l') == (if (Overfills(l, b) || HurtsLive(l, b, now, tidy)) && !l.tolerateDrift then Raised(l, b) else FlagsOf(l))
            && l'.lastSeen == l.lastSeen && l'.installCovers == l.installCovers
  {
    var l2 := CacheForReplay(l, b);
    CachingMarksIff(l, b);
    LiveMarksIff(l2, b, now, tidy);
    MarkedTwice(l, l2, ApplyLive(l2, b, now, tidy), b, Overfills(l, b), HurtsLive(l, b, now, tidy));
  }

  /** Two marks at one height are one mark. */
  lemma MarkedTwice(l1: Listener, l2: Listener, l3: Listener, b: EventBatch, overfills: bool, hurts: bool)
    requires FlagsOf(l2) == if overfills && !l1.tolerateDrift then Raised(l1, b) else FlagsOf(l1)
    requires FlagsOf(l3) == if hurts && !l1.tolerateDrift then Raised(l2, b) else FlagsOf(l2)
    requires Highest(l2, b) == Highest(l1, b)
    ensures FlagsOf(l3) == if (overfills || hurts) && !l1.tolerateDrift then Raised(l1, b) else FlagsOf(l1)
  {
  }

  lemma CachingMarksIff(l: Listener, b: EventBatch)
    requires b.height <= l.lastSeen
    ensures var l' := CacheForReplay(l, b);
            && FlagsOf(l') == (if Overfills(l, b) && !l.tolerateDrift then Raised(l, b) else FlagsOf(l))
            && l'.book == l.book && l'.lastSeen == l.lastSeen && l'.tolerateDrift == l.tolerateDrift && l'.installCovers == l.installCovers
  {
  }

  lemma LiveMarksIff(l: Listener, b: EventBatch, now: nat, tidy: Option<Tidying>)
    requires b.height <= l.lastSeen
    ensures var l' := ApplyLive(l, b, now, tidy);
            && FlagsOf(l') == (if HurtsLive(l, b, now, tidy) && !l.tolerateDrift then Raised(l, b) else FlagsOf(l))
            && l'.lastSeen == l.lastSeen && l'.installCovers == l.installCovers
  {
    if l.book.Some? {
      BatchAppliesIffAccepted(l.book.value, StepsOf(b, now));
      BatchHeightIs(l.book.value, b, now);
    }
  }

  /** A batch moves the book to its own height at most. */
  lemma BatchHeightIs(s: State, b: EventBatch, now: nat)
    ensures ApplyAll(s, StepsOf(b, now)).state.height == if b.Fills? then s.height else Max(s.height, b.height)
  {
    match b
    case Orders(h, time, events) =>
      StatusStepsAre(events, now);
      Waiting.BatchMovesClock(s, BeginStatuses(h, time), StatusSteps(events, now));
    case BookDiffs(h, time, events) =>
      DiffStepsAre(events, now, h);
      Waiting.BatchMovesClock(s, BeginDiffs(h, time), DiffSteps(events, now, h));
    case Fills(_, _) =>
  }

  /** What is cached after a batch: nothing is dropped unless it overfills the cache, and all of it goes then. */
  lemma BatchIsCached(l: Listener, b: EventBatch, now: nat, tidy: Option<Tidying>)
    ensures var l' := ApplyEventBatch(l, b, now, tidy);
            if Oversize(b) || b.Fills? || l.cache.None? then l'.cache == l.cache
            else if Overfills(l, b) then l'.cache.None?
            else l'.cache == Some(l.cache.value + [b])
  {
    var l1 := l.(lastSeen := Max(l.lastSeen, b.height));
    ApplyLiveKeepsCache(CacheForReplay(l1, b), b, now, tidy);
  }

  /** A maintenance pass leaves its outcome in the live book. */
  lemma BatchIsTidied(l: Listener, b: EventBatch, now: nat, t: Tidying)
    requires l.book.Some? && !Oversize(b)
    ensures var l' := ApplyEventBatch(l, b, now, Some(t));
            && l'.book.Some?
            && l'.book.value.books == t.books && l'.book.value.statuses == t.statuses && l'.book.value.news == t.news
  {
    CachingKeepsBook(l.(lastSeen := Max(l.lastSeen, b.height)), b);
  }

  /**
   What a commit leaves of the marks. A failed replay marks afresh; otherwise a recorded loss above what
   the install covers stays, one of unknown height being taken to lie no higher than what has been seen.
   */
  lemma CommitLeavesMarks(l: Listener, r: Replay, height: nat, now: nat)
    requires !r.failed
    ensures var l' := FinishInstall(l, r, height, now);
            var covers := Max(l.installCovers, height);
            var failed := !EachAccepted(r.state, AboveSnapshot(Residue(l), height), now);
            && FlagsOf(l') == (
                 if failed && l.tolerateDrift then Flags(false, false, 0)
                 else if failed then Flags(true, true, LossBound(l'))
                 else if l.maxLoss <= covers then Flags(false, false, 0)
                 else Flags(true, true, if l.maxLoss == U64_MAX then Max(l.lastSeen, height) else l.maxLoss))
            && l'.cache.None? && l'.cachedEvents == 0 && l'.installCovers == 0 && l'.lastSeen == l.lastSeen
  {
    ReplayIsAbove(r, Residue(l), height, now);
  }
}
