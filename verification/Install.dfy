/**
 Snapshot installs. The replacement book is built off-lock and chases the replay cache in
 rounds while the live book keeps serving; a short commit replays the residue and swaps.
 Whatever the schedule, the committed listener is the one a single-lock install would give.
 */
module Install {
  import opened Types
  import opened Pairing
  import opened StateMachine
  import opened Clockless

  const LOSS_HEIGHT_MARGIN: nat := 100
  const MAX_EVENTS_PER_BATCH: nat := 100_000
  const TIDY_EVERY: nat := 1000

  datatype EventBatch =
    | Orders(height: nat, time: nat, statuses: seq<Status>)
    | BookDiffs(height: nat, time: nat, diffs: seq<Diff>)
    | Fills(height: nat, fills: nat)

  function EventsLen(b: EventBatch): nat {
    match b
    case Orders(_, _, statuses) => |statuses|
    case BookDiffs(_, _, diffs) => |diffs|
    case Fills(_, fills) => fills
  }

  /** The listener's fields that installs and loss bookkeeping use. */
  datatype Listener = Listener(
    book: Option<State>,
    cache: Option<seq<EventBatch>>,
    cachedEvents: nat,
    cap: nat,
    needsResync: bool,
    urgent: bool,
    maxLoss: nat,
    installCovers: nat,
    lastSeen: nat,
    tolerateDrift: bool)

  // ----- applying batches -----

  function StepsOf(b: EventBatch, now: nat): seq<Step> {
    match b
    case Orders(h, time, statuses) => [BeginStatuses(h, time)] + StatusSteps(statuses, now)
    case BookDiffs(h, time, diffs) => [BeginDiffs(h, time)] + DiffSteps(diffs, now, h)
    case Fills(_, _) => []
  }

  /** A book under construction, the events replayed onto it, and whether any apply failed. */
  datatype Replay = Replay(state: State, events: nat, failed: bool)

  /** One cached batch on the new book; the snapshot already holds what is not above its height. */
  function ReplayAbove(r: Replay, b: EventBatch, height: nat, now: nat): Replay {
    if b.Fills? || b.height <= height then r
    else
      var o := ApplyAll(r.state, StepsOf(b, now));
      Replay(o.state, r.events + EventsLen(b), r.failed || !o.ok)
  }

  function ReplayAll(r: Replay, batches: seq<EventBatch>, height: nat, now: nat): Replay
    decreases |batches|
  {
    if batches == [] then r else ReplayAll(ReplayAbove(r, batches[0], height, now), batches[1..], height, now)
  }

  // ----- loss marks -----

  /** The highest height known: that of the book or of the live streams. */
  function Observed(l: Listener): nat {
    Max(if l.book.Some? then l.book.value.height else 0, l.lastSeen)
  }

  function LossBound(l: Listener): nat {
    if Observed(l) == 0 then U64_MAX else SatAdd(Observed(l), LOSS_HEIGHT_MARGIN)
  }

  function MarkDesynced(l: Listener): Listener {
    if l.tolerateDrift then l
    else l.(needsResync := true, urgent := true, maxLoss := Max(l.maxLoss, LossBound(l)))
  }

  // ----- the replay cache -----

  function SumEvents(batches: seq<EventBatch>): nat {
    if batches == [] then 0 else SumEvents(batches[..|batches| - 1]) + EventsLen(batches[|batches| - 1])
  }

  function BeginCaching(l: Listener): Listener {
    if l.cache.None? then l.(cache := Some([]), cachedEvents := 0) else l
  }

  function PushToCache(l: Listener, b: EventBatch): Listener
    requires l.cache.Some?
  {
    if l.cachedEvents + EventsLen(b) > l.cap then MarkDesynced(l.(cache := None, cachedEvents := 0))
    else l.(cache := Some(l.cache.value + [b]), cachedEvents := l.cachedEvents + EventsLen(b))
  }

  function CacheForReplay(l: Listener, b: EventBatch): Listener {
    if b.Fills? || l.cache.None? then l else PushToCache(l, b)
  }

  /** The live book once a batch has been applied to it, as far as it went. */
  function Applied(s: State, b: EventBatch, now: nat): State {
    ApplyAll(s, StepsOf(b, now)).state.(fallbacks := 0)
  }

  predicate LosesHalves(tidy: Option<Tidying>) {
    tidy.Some? && tidy.value.lost
  }

  /** Apply to the live book; `tidy` is what a maintenance pass leaves, when one is due with this batch. */
  function ApplyLive(l: Listener, b: EventBatch, now: nat, tidy: Option<Tidying>): Listener {
    if l.book.None? then l
    else
      var s := Applied(l.book.value, b, now);
      var l' := l.(book := Some(if tidy.Some? then Tidied(s, tidy.value) else s));
      if ApplyAll(l.book.value, StepsOf(b, now)).ok && !LosesHalves(tidy) then l' else MarkDesynced(l')
  }

  /** apply_event_batch: note the height, drop what is oversize, cache for replay, apply to the live book. */
  function ApplyEventBatch(l: Listener, b: EventBatch, now: nat, tidy: Option<Tidying>): Listener {
    var l1 := l.(lastSeen := Max(l.lastSeen, b.height));
    if EventsLen(b) > MAX_EVENTS_PER_BATCH then MarkDesynced(l1)
    else ApplyLive(CacheForReplay(l1, b), b, now, tidy)
  }

  // ----- the commit -----

  function Residue(l: Listener): seq<EventBatch> {
    if l.cache.Some? then l.cache.value else []
  }

  function FinishInstall(l: Listener, r: Replay, height: nat, now: nat): Listener {
    var r' := ReplayAll(r, Residue(l), height, now);
    var covers := Max(l.installCovers, height);
    var l' := l.(cache := None, cachedEvents := 0, book := Some(r'.state.(fallbacks := 0)), installCovers := 0,
                 needsResync := false, urgent := false, maxLoss := 0);
    if r'.failed then MarkDesynced(l')
    else if l.maxLoss > covers then
      l'.(needsResync := true, urgent := true,
          maxLoss := if l.maxLoss == U64_MAX then Max(l.lastSeen, height) else l.maxLoss)
    else l'
  }

  // ----- the phased install -----

  /** An install in flight. `arrived` is everything meant for the replay since caching began. */
  datatype Chase = Chase(l: Listener, next: Replay, round: nat, arrived: seq<EventBatch>)

  datatype Event =
    | Live(batch: EventBatch, now: nat, tidy: Option<Tidying>)   // a batch reaches the live book
    | Lose                                                       // a loss is marked from elsewhere
    | Round(now: nat)                                            // a chase round that does not commit: steal the cache and replay it

  /** Neither cached nor replayed: fills, and batches dropped for their size. */
  predicate ForReplay(b: EventBatch) {
    !b.Fills? && EventsLen(b) <= MAX_EVENTS_PER_BATCH
  }

  function Advance(c: Chase, e: Event, height: nat): Chase {
    match e
    case Live(b, now, tidy) => c.(l := ApplyEventBatch(c.l, b, now, tidy), arrived := c.arrived + if ForReplay(b) then [b] else [])
    case Lose => c.(l := MarkDesynced(c.l))
    case Round(now) =>
      c.(l := c.l.(cache := if c.l.cache.Some? then Some([]) else None, cachedEvents := 0),
         next := ReplayAll(c.next, Residue(c.l), height, now),
         round := c.round + 1)
  }

  function AdvanceAll(c: Chase, es: seq<Event>, height: nat): Chase
    decreases |es|
  {
    if es == [] then c else AdvanceAll(Advance(c, es[0], height), es[1..], height)
  }

  function BeginChase(l: Listener, snapshot: State): Chase {
    Chase(l, Replay(snapshot, 0, false), 0, Residue(l))
  }

  datatype Decision = Commit | Chasing | GiveUp

  /** What the install does when it next holds the lock. */
  function Decide(c: Chase, residualMax: nat, maxRounds: nat): Decision {
    if c.l.cache.None? || c.l.cachedEvents <= residualMax then Commit
    else if c.round < maxRounds then Chasing
    else GiveUp
  }

  /** Discard the rest of the cache, commit the gapped book and mark it. */
  function CommitGapped(c: Chase, height: nat, now: nat): Listener {
    MarkDesynced(FinishInstall(c.l.(cache := None, cachedEvents := 0), c.next, height, now))
  }

  // ----- the cache counter -----

  ghost predicate CacheCounted(l: Listener) {
    && l.cachedEvents == SumEvents(Residue(l))
    && l.cachedEvents <= l.cap
  }

  lemma LiveKeepsCount(l: Listener, b: EventBatch, now: nat, tidy: Option<Tidying>)
    requires CacheCounted(l)
    ensures CacheCounted(ApplyEventBatch(l, b, now, tidy))
    ensures ApplyEventBatch(l, b, now, tidy).cache.Some? ==> (
      && l.cache.Some?
      && Residue(ApplyEventBatch(l, b, now, tidy)) == Residue(l) + if ForReplay(b) then [b] else [])
  {
    if ForReplay(b) && l.cache.Some? {
      assert (l.cache.value + [b])[..|l.cache.value|] == l.cache.value;
    }
    ApplyLiveKeepsCache(CacheForReplay(l.(lastSeen := Max(l.lastSeen, b.height)), b), b, now, tidy);
  }

  lemma ApplyLiveKeepsCache(l: Listener, b: EventBatch, now: nat, tidy: Option<Tidying>)
    ensures var l' := ApplyLive(l, b, now, tidy);
            l'.cache == l.cache && l'.cachedEvents == l.cachedEvents && l'.cap == l.cap && l'.lastSeen == l.lastSeen
  {
  }

  /** The counter is the number of events held, and within the cap, over every run. */
  lemma {:induction false} CacheStaysCounted(c: Chase, es: seq<Event>, height: nat)
    requires CacheCounted(c.l)
    ensures CacheCounted(AdvanceAll(c, es, height).l)
    decreases |es|
  {
    if es != [] {
      AdvanceKeepsCount(c, es[0], height);
      CacheStaysCounted(Advance(c, es[0], height), es[1..], height);
    }
  }

  lemma AdvanceKeepsCount(c: Chase, e: Event, height: nat)
    requires CacheCounted(c.l)
    ensures CacheCounted(Advance(c, e, height).l)
  {
    match e
    case Live(b, now, tidy) => LiveKeepsCount(c.l, b, now, tidy);
    case Lose =>
    case Round(now) =>
  }

  /** Every operation of the listener that touches the replay cache or the marks. */
  datatype Call =
    | Arrive(batch: EventBatch, now: nat, tidy: Option<Tidying>)
    | MarkLoss
    | StartFetch(head: nat)
    | Drain
    | Abandon
    | Finish(next: Replay, height: nat, now: nat)

  function Do(l: Listener, call: Call): Listener {
    match call
    case Arrive(b, now, tidy) => ApplyEventBatch(l, b, now, tidy)
    case MarkLoss => MarkDesynced(l)
    case StartFetch(head) => BeginCaching(l).(installCovers := head)
    case Drain => l.(cache := if l.cache.Some? then Some([]) else None, cachedEvents := 0)
    case Abandon => l.(cache := None, cachedEvents := 0)
    case Finish(next, height, now) => FinishInstall(l, next, height, now)
  }

  function DoAll(l: Listener, calls: seq<Call>): Listener
    decreases |calls|
  {
    if calls == [] then l else DoAll(Do(l, calls[0]), calls[1..])
  }

  /** A listener as it is created: caching from the first event on. */
  function NewListener(cap: nat, tolerateDrift: bool): Listener {
    Listener(None, Some([]), 0, cap, false, false, 0, 0, 0, tolerateDrift)
  }

  lemma {:induction false} CallsKeepCount(l: Listener, calls: seq<Call>)
    requires CacheCounted(l)
    ensures CacheCounted(DoAll(l, calls)) && DoAll(l, calls).cap == l.cap
    decreases |calls|
  {
    if calls != [] {
      CallKeepsCount(l, calls[0]);
      CallsKeepCount(Do(l, calls[0]), calls[1..]);
    }
  }

  lemma CallKeepsCount(l: Listener, call: Call)
    requires CacheCounted(l)
    ensures CacheCounted(Do(l, call)) && Do(l, call).cap == l.cap
  {
    match call
    case Arrive(b, now, tidy) =>
      LiveKeepsCount(l, b, now, tidy);
      LiveKeepsCap(l, b, now, tidy);
    case MarkLoss =>
    case StartFetch(head) => assert Residue(Do(l, call)) == Residue(l);
    case Drain =>
    case Abandon =>
    case Finish(next, height, now) => FinishEmptiesCache(l, next, height, now);
  }

  lemma LiveKeepsCap(l: Listener, b: EventBatch, now: nat, tidy: Option<Tidying>)
    ensures ApplyEventBatch(l, b, now, tidy).cap == l.cap
  {
    ApplyLiveKeepsCache(CacheForReplay(l.(lastSeen := Max(l.lastSeen, b.height)), b), b, now, tidy);
  }

  lemma FinishEmptiesCache(l: Listener, next: Replay, height: nat, now: nat)
    ensures var l' := FinishInstall(l, next, height, now); l'.cache.None? && l'.cachedEvents == 0 && l'.cap == l.cap
  {
  }

  /** Whatever is called on a listener, and in whatever order: the counter is the number of events held, never over the cap. */
  lemma CacheIsAlwaysCounted(cap: nat, tolerateDrift: bool, calls: seq<Call>)
    ensures var l := DoAll(NewListener(cap, tolerateDrift), calls);
            l.cachedEvents == SumEvents(Residue(l)) && SumEvents(Residue(l)) <= cap
  {
    CallsKeepCount(NewListener(cap, tolerateDrift), calls);
  }

  // ----- commits with a dead cache -----

  /**
   A commit that finds the cache dead installs what was replayed before it died, and leaves the
   flag up exactly when a replay failed (and drift is not tolerated) or the recorded loss lies
   above what the install covers.
   */
  lemma DeadCommitIs(l: Listener, r: Replay, height: nat, now: nat)
    requires l.cache.None?
    ensures var l' := FinishInstall(l, r, height, now);
            && l'.book == Some(r.state.(fallbacks := 0))
            && (l'.needsResync <==> if r.failed then !l.tolerateDrift else l.maxLoss > Max(l.installCovers, height))
  {
  }

  // ----- replaying in pieces -----

  lemma {:induction false} ReplayConcat(r: Replay, a: seq<EventBatch>, b: seq<EventBatch>, height: nat, now: nat)
    ensures ReplayAll(r, a + b, height, now) == ReplayAll(ReplayAll(r, a, height, now), b, height, now)
    decreases |a|
  {
    if a == [] {
      assert a + b == b;
    } else {
      assert (a + b)[0] == a[0] && (a + b)[1..] == a[1..] + b;
      ReplayConcat(ReplayAbove(r, a[0], height, now), a[1..], b, height, now);
    }
  }

  ghost predicate SimilarReplay(r: Replay, q: Replay) {
    Similar(r.state, q.state) && r.events == q.events && r.failed == q.failed
  }

  lemma {:induction false} StatusStepsSame(events: seq<Status>, now: nat, now': nat)
    ensures SameEvents(StatusSteps(events, now), StatusSteps(events, now'))
  {
    if events != [] {
      StatusStepsSame(events[1..], now, now');
    }
  }

  lemma {:induction false} DiffStepsSame(events: seq<Diff>, now: nat, now': nat, h: nat)
    ensures SameEvents(DiffSteps(events, now, h), DiffSteps(events, now', h))
  {
    if events != [] {
      DiffStepsSame(events[1..], now, now', h);
    }
  }

  lemma StepsSame(b: EventBatch, now: nat, now': nat)
    ensures SameEvents(StepsOf(b, now), StepsOf(b, now'))
  {
    match b
    case Orders(h, time, statuses) => StatusStepsSame(statuses, now, now');
    case BookDiffs(h, time, diffs) => DiffStepsSame(diffs, now, now', h);
    case Fills(_, _) =>
  }

  lemma {:induction false} ReplaySimilar(r: Replay, q: Replay, bs: seq<EventBatch>, height: nat, now: nat, now': nat)
    requires SimilarReplay(r, q)
    ensures SimilarReplay(ReplayAll(r, bs, height, now), ReplayAll(q, bs, height, now'))
    decreases |bs|
  {
    if bs != [] {
      StepsSame(bs[0], now, now');
      ClockDoesNotMatter(r.state, q.state, StepsOf(bs[0], now), StepsOf(bs[0], now'));
      ReplaySimilar(ReplayAbove(r, bs[0], height, now), ReplayAbove(q, bs[0], height, now'), bs[1..], height, now, now');
    }
  }

  // ----- the chase refines one replay -----

  /**
   While the cache is alive, what arrived is what was replayed so far followed by what is
   still cached, and the replacement book is one replay of the former.
   */
  ghost predicate Chased(c: Chase, snapshot: State, height: nat, done: seq<EventBatch>) {
    && c.arrived == done + Residue(c.l)
    && SimilarReplay(c.next, ReplayAll(Replay(snapshot, 0, false), done, height, 0))
  }

  ghost predicate ChaseInv(c: Chase, snapshot: State, height: nat) {
    CacheCounted(c.l) && (c.l.cache.Some? ==> exists done :: Chased(c, snapshot, height, done))
  }

  lemma RoundKeepsChased(c: Chase, snapshot: State, height: nat, now: nat, done: seq<EventBatch>)
    requires Chased(c, snapshot, height, done)
    ensures Chased(Advance(c, Round(now), height), snapshot, height, done + Residue(c.l))
  {
    var start := Replay(snapshot, 0, false);
    ReplayConcat(start, done, Residue(c.l), height, 0);
    ReplaySimilar(c.next, ReplayAll(start, done, height, 0), Residue(c.l), height, now, 0);
  }

  lemma LiveKeepsChased(
    c: Chase, snapshot: State, height: nat, b: EventBatch, now: nat, tidy: Option<Tidying>, done: seq<EventBatch>)
    requires CacheCounted(c.l) && Chased(c, snapshot, height, done) && Advance(c, Live(b, now, tidy), height).l.cache.Some?
    ensures Chased(Advance(c, Live(b, now, tidy), height), snapshot, height, done)
  {
    LiveKeepsCount(c.l, b, now, tidy);
    assert done + (Residue(c.l) + if ForReplay(b) then [b] else []) == (done + Residue(c.l)) + if ForReplay(b) then [b] else [];
  }

  lemma AdvanceKeepsChaseInv(c: Chase, snapshot: State, height: nat, e: Event)
    requires ChaseInv(c, snapshot, height)
    ensures ChaseInv(Advance(c, e, height), snapshot, height)
  {
    var c' := Advance(c, e, height);
    AdvanceKeepsCount(c, e, height);
    if c'.l.cache.Some? {
      match e
      case Live(b, now, tidy) =>
        LiveKeepsCount(c.l, b, now, tidy);
        var done :| Chased(c, snapshot, height, done);
        LiveKeepsChased(c, snapshot, height, b, now, tidy, done);
      case Lose =>
        var done :| Chased(c, snapshot, height, done);
        assert Chased(c', snapshot, height, done);
      case Round(now) =>
        var done :| Chased(c, snapshot, height, done);
        RoundKeepsChased(c, snapshot, height, now, done);
    }
  }

  lemma {:induction false} ChaseKeepsInv(c: Chase, snapshot: State, height: nat, es: seq<Event>)
    requires ChaseInv(c, snapshot, height)
    ensures ChaseInv(AdvanceAll(c, es, height), snapshot, height)
    decreases |es|
  {
    if es != [] {
      AdvanceKeepsChaseInv(c, snapshot, height, es[0]);
      ChaseKeepsInv(Advance(c, es[0], height), snapshot, height, es[1..]);
    }
  }

  /** The batches of a schedule that are meant for the replay, in order of arrival. */
  function Arrivals(es: seq<Event>): seq<EventBatch> {
    if es == [] then []
    else (if es[0].Live? && ForReplay(es[0].batch) then [es[0].batch] else []) + Arrivals(es[1..])
  }

  lemma {:induction false} ArrivedIsArrivals(c: Chase, es: seq<Event>, height: nat)
    ensures AdvanceAll(c, es, height).arrived == c.arrived + Arrivals(es)
    decreases |es|
  {
    if es == [] {
      assert c.arrived + [] == c.arrived;
    } else {
      ArrivedIsArrivals(Advance(c, es[0], height), es[1..], height);
      var first := if es[0].Live? && ForReplay(es[0].batch) then [es[0].batch] else [];
      assert Advance(c, es[0], height).arrived == c.arrived + first;
      assert (c.arrived + first) + Arrivals(es[1..]) == c.arrived + (first + Arrivals(es[1..]));
    }
  }

  /** Listeners equal in everything but the stamps of waiting halves. */
  ghost predicate SimilarListener(l: Listener, k: Listener) {
    && l.(book := None) == k.(book := None)
    && l.book.Some? && k.book.Some?
    && Similar(l.book.value, k.book.value)
  }

  lemma FinishSimilar(l: Listener, r: Replay, k: Listener, q: Replay, height: nat, now: nat, now': nat)
    requires l.(cache := None, cachedEvents := 0) == k.(cache := None, cachedEvents := 0)
    requires SimilarReplay(ReplayAll(r, Residue(l), height, now), ReplayAll(q, Residue(k), height, now'))
    ensures SimilarListener(FinishInstall(l, r, height, now), FinishInstall(k, q, height, now'))
  {
    var s, t := ReplayAll(r, Residue(l), height, now).state, ReplayAll(q, Residue(k), height, now').state;
    SameChangeSimilar(s, t, s.(fallbacks := 0), t.(fallbacks := 0));
  }

  /**
   The phased install refines the single-lock install: for every schedule of live batches,
   losses and chase rounds that leaves the cache alive, committing gives the listener that one
   install replaying everything cached before and during the chase would give, stamps aside.
   */
  lemma PhasedInstallIsOneReplay(l: Listener, snapshot: State, height: nat, es: seq<Event>, now: nat, now': nat)
    requires CacheCounted(l)
    requires AdvanceAll(BeginChase(l, snapshot), es, height).l.cache.Some?
    ensures var c := AdvanceAll(BeginChase(l, snapshot), es, height);
            SimilarListener(
              FinishInstall(c.l, c.next, height, now),
              FinishInstall(c.l.(cache := Some(Residue(l) + Arrivals(es))), Replay(snapshot, 0, false), height, now'))
  {
    var c0 := BeginChase(l, snapshot);
    var start := Replay(snapshot, 0, false);
    assert Chased(c0, snapshot, height, []) by {
      assert [] + Residue(l) == Residue(l);
      SimilarToItself(snapshot);
    }
    ChaseKeepsInv(c0, snapshot, height, es);
    ArrivedIsArrivals(c0, es, height);
    var c := AdvanceAll(c0, es, height);
    var done :| Chased(c, snapshot, height, done);
    ReplaySimilar(c.next, ReplayAll(start, done, height, 0), Residue(c.l), height, now, 0);
    ReplayConcat(start, done, Residue(c.l), height, 0);
    SimilarStart(snapshot);
    ReplaySimilar(start, start, c.arrived, height, 0, now');
    SimilarIsTransitive(ReplayAll(c.next, Residue(c.l), height, now).state,
                        ReplayAll(start, c.arrived, height, 0).state,
                        ReplayAll(start, c.arrived, height, now').state);
    var single := c.l.(cache := Some(Residue(l) + Arrivals(es)));
    assert Residue(single) == c.arrived;
    FinishSimilar(c.l, c.next, single, start, height, now, now');
  }

  lemma SimilarToItself(s: State)
    ensures Similar(s, s)
  {
  }

  lemma SimilarStart(s: State)
    ensures SimilarReplay(Replay(s, 0, false), Replay(s, 0, false))
  {
  }

  /** Giving up never commits a gapped book silently. */
  lemma GapIsMarked(c: Chase, height: nat, now: nat)
    requires !c.l.tolerateDrift
    ensures CommitGapped(c, height, now).needsResync && CommitGapped(c, height, now).urgent
    ensures var l' := CommitGapped(c, height, now); l'.maxLoss >= Min(Observed(l') + 100, U64_MAX)
  {
  }

  // ----- the whole install, round by round -----

  /** What happens before the install gets the lock, and the clock when it does. */
  datatype Window = Window(events: seq<Event>, now: nat)

  function FirstWindow(ws: seq<Window>): Window {
    if ws == [] then Window([], 0) else ws[0]
  }

  function LaterWindows(ws: seq<Window>): seq<Window> {
    if ws == [] then [] else ws[1..]
  }

  /** The chase when the install stops chasing: ready to commit, or out of rounds. */
  function ChaseDown(c: Chase, ws: seq<Window>, height: nat, residualMax: nat, maxRounds: nat): Chase
    decreases maxRounds - c.round
  {
    var c1 := AdvanceAll(c, FirstWindow(ws).events, height).(round := c.round);
    if Decide(c1, residualMax, maxRounds) == Chasing
    then ChaseDown(Advance(c1, Round(FirstWindow(ws).now), height), LaterWindows(ws), height, residualMax, maxRounds)
    else c1
  }

  /** The listener an install leaves behind. */
  function InstallPhased(c: Chase, ws: seq<Window>, height: nat, residualMax: nat, maxRounds: nat, now: nat): Listener {
    var c1 := ChaseDown(c, ws, height, residualMax, maxRounds);
    if Decide(c1, residualMax, maxRounds) == GiveUp then CommitGapped(c1, height, now)
    else FinishInstall(c1.l, c1.next, height, now)
  }

  lemma {:induction false} AdvanceConcat(c: Chase, a: seq<Event>, b: seq<Event>, height: nat)
    ensures AdvanceAll(c, a + b, height) == AdvanceAll(AdvanceAll(c, a, height), b, height)
    decreases |a|
  {
    if a == [] {
      assert a + b == b;
    } else {
      assert (a + b)[0] == a[0] && (a + b)[1..] == a[1..] + b;
      AdvanceConcat(Advance(c, a[0], height), a[1..], b, height);
    }
  }

  /** The round number does not influence what a chase does. */
  lemma {:induction false} RoundIsOnlyCounted(c: Chase, k: nat, es: seq<Event>, height: nat)
    ensures AdvanceAll(c.(round := k), es, height).(round := 0) == AdvanceAll(c, es, height).(round := 0)
    decreases |es|
  {
    if es != [] {
      var c' := Advance(c, es[0], height);
      var k' := Advance(c.(round := k), es[0], height).round;
      assert Advance(c.(round := k), es[0], height) == c'.(round := k');
      RoundIsOnlyCounted(c', k', es[1..], height);
    }
  }

  /** A chase is some schedule of live batches, losses and rounds. */
  lemma {:induction false} ChaseDownIsASchedule(c: Chase, ws: seq<Window>, height: nat, residualMax: nat, maxRounds: nat)
    returns (es: seq<Event>)
    ensures ChaseDown(c, ws, height, residualMax, maxRounds).(round := 0) == AdvanceAll(c, es, height).(round := 0)
    decreases maxRounds - c.round
  {
    var w := FirstWindow(ws);
    var a := AdvanceAll(c, w.events, height);
    var c1 := a.(round := c.round);
    if Decide(c1, residualMax, maxRounds) == Chasing {
      var rest := ChaseDownIsASchedule(Advance(c1, Round(w.now), height), LaterWindows(ws), height, residualMax, maxRounds);
      es := w.events + ([Round(w.now)] + rest);
      AdvanceConcat(c, w.events, [Round(w.now)] + rest, height);
      assert ([Round(w.now)] + rest)[0] == Round(w.now) && ([Round(w.now)] + rest)[1..] == rest;
      assert Advance(c1, Round(w.now), height) == Advance(a, Round(w.now), height).(round := c.round + 1);
      RoundIsOnlyCounted(Advance(a, Round(w.now), height), c.round + 1, rest, height);
    } else {
      es := w.events;
    }
  }

  /**
   Every install, whatever happens in its windows, leaves the listener of one single-lock install
   over all that arrived; or gives up, installs what it had replayed and says so; or finds its cache dead, installs what it had
   replayed, and keeps the flag up exactly when a replay failed or the mark is above what it covers.
   */
  lemma InstallIsOneReplay(
    l: Listener, snapshot: State, ws: seq<Window>, height: nat, residualMax: nat, maxRounds: nat, now: nat)
    requires CacheCounted(l)
    ensures var c := ChaseDown(BeginChase(l, snapshot), ws, height, residualMax, maxRounds);
            var l' := InstallPhased(BeginChase(l, snapshot), ws, height, residualMax, maxRounds, now);
            if c.l.cache.None? then (
              && l'.book == Some(c.next.state.(fallbacks := 0))
              && (l'.needsResync <==> if c.next.failed then !c.l.tolerateDrift else c.l.maxLoss > Max(c.l.installCovers, height)))
            else if c.l.cachedEvents > residualMax then (
              && l'.book == Some(c.next.state.(fallbacks := 0))
              && (c.l.tolerateDrift || (l'.needsResync && l'.urgent)))
            else SimilarListener(l', FinishInstall(c.l.(cache := Some(c.arrived)), Replay(snapshot, 0, false), height, now))
  {
    var c0 := BeginChase(l, snapshot);
    var c := ChaseDown(c0, ws, height, residualMax, maxRounds);
    ChaseDownStops(c0, ws, height, residualMax, maxRounds);
    var es := ChaseDownIsASchedule(c0, ws, height, residualMax, maxRounds);
    var d := AdvanceAll(c0, es, height);
    assert c.l == d.l && c.next == d.next && c.arrived == d.arrived by {
      assert c.(round := 0) == d.(round := 0);
    }
    if c.l.cache.None? {
      DeadCommitIs(c.l, c.next, height, now);
    } else if c.l.cachedEvents <= residualMax {
      PhasedInstallIsOneReplay(l, snapshot, height, es, now, now);
      ArrivedIsArrivals(c0, es, height);
    }
  }

  lemma {:induction false} ChaseDownStops(c: Chase, ws: seq<Window>, height: nat, residualMax: nat, maxRounds: nat)
    ensures Decide(ChaseDown(c, ws, height, residualMax, maxRounds), residualMax, maxRounds) != Chasing
    decreases maxRounds - c.round
  {
    var c1 := AdvanceAll(c, FirstWindow(ws).events, height).(round := c.round);
    if Decide(c1, residualMax, maxRounds) == Chasing {
      ChaseDownStops(Advance(c1, Round(FirstWindow(ws).now), height), LaterWindows(ws), height, residualMax, maxRounds);
    }
  }

  // ----- the object -----

  class OrderBookListener {
    var book: Option<State>
    var cache: Option<seq<EventBatch>>
    var cachedEvents: nat
    const cap: nat
    var needsResync: bool
    var urgent: bool
    var maxLoss: nat
    var installCovers: nat
    var lastSeen: nat
    const tolerateDrift: bool

    ghost function View(): Listener
      reads this
    {
      Listener(book, cache, cachedEvents, cap, needsResync, urgent, maxLoss, installCovers, lastSeen, tolerateDrift)
    }

    constructor (cap: nat, tolerateDrift: bool)
      ensures View() == NewListener(cap, tolerateDrift)
      ensures CacheCounted(View())
    {
      this.cap, this.tolerateDrift := cap, tolerateDrift;
      book, cache, cachedEvents := None, Some([]), 0;
      needsResync, urgent, maxLoss, installCovers, lastSeen := false, false, 0, 0, 0;
    }

    method StartCaching()
      modifies this`cache, this`cachedEvents
      ensures View() == BeginCaching(old(View()))
    {
      if cache.None? {
        cache, cachedEvents := Some([]), 0;
      }
    }

    method Mark()
      modifies this`needsResync, this`urgent, this`maxLoss
      ensures View() == MarkDesynced(old(View()))
    {
      if tolerateDrift { return; }
      needsResync, urgent := true, true;
      var stateHeight := if book.Some? then book.value.height else 0;
      var observed := Max(stateHeight, lastSeen);
      maxLoss := Max(maxLoss, if observed == 0 then U64_MAX else SatAdd(observed, LOSS_HEIGHT_MARGIN));
    }

    method PushToReplayCache(b: EventBatch)
      requires cache.Some?
      modifies this
      ensures View() == PushToCache(old(View()), b)
    {
      if cachedEvents + EventsLen(b) > cap {
        cache, cachedEvents := None, 0;
        Mark();
      } else {
        cache := Some(cache.value + [b]);
        cachedEvents := cachedEvents + EventsLen(b);
      }
    }

    /** One batch from the live streams; `tidy` is the outcome of the maintenance pass, when one is due with it. */
    method ApplyBatch(b: EventBatch, now: nat, tidy: Option<Tidying>)
      modifies this
      ensures View() == ApplyEventBatch(old(View()), b, now, tidy)
    {
      lastSeen := Max(lastSeen, b.height);
      if EventsLen(b) > MAX_EVENTS_PER_BATCH {
        Mark();
        return;
      }
      if !b.Fills? && cache.Some? {
        PushToReplayCache(b);
      }
      ApplyToLiveBook(b, now, tidy);
    }

    method ApplyToLiveBook(b: EventBatch, now: nat, tidy: Option<Tidying>)
      modifies this
      ensures View() == ApplyLive(old(View()), b, now, tidy)
    {
      if book.None? {
        return;
      }
      var o := ApplyAll(book.value, StepsOf(b, now));
      var s := o.state.(fallbacks := 0);
      book := Some(if tidy.Some? then Tidied(s, tidy.value) else s);
      if !o.ok || LosesHalves(tidy) {
        Mark();
      }
    }

    /** The same with the maintenance pass itself, which comes with every thousandth batch applied. */
    method ApplyCounted(b: EventBatch, now: nat, count: nat) returns (tidy: Option<Tidying>)
      modifies this
      ensures View() == ApplyEventBatch(old(View()), b, now, tidy)
      ensures tidy.Some? <==> count % 1000 == 0 && old(book).Some? && EventsLen(b) <= 100_000
      ensures tidy.Some? ==> Cleans(Applied(old(book).value, b, now), now, tidy.value)
    {
      tidy := None;
      if count % TIDY_EVERY == 0 && book.Some? && EventsLen(b) <= MAX_EVENTS_PER_BATCH {
        var t := Tidy(Applied(book.value, b, now), now);
        tidy := Some(t);
      }
      ApplyBatch(b, now, tidy);
    }

    /** Steal the cache, leaving an empty one in place. */
    method DrainReplayCache() returns (chunk: seq<EventBatch>)
      modifies this`cache, this`cachedEvents
      ensures chunk == Residue(old(View()))
      ensures View() == old(View()).(cache := if old(cache).Some? then Some([]) else None, cachedEvents := 0)
    {
      chunk := if cache.Some? then cache.value else [];
      cachedEvents := 0;
      if cache.Some? {
        cache := Some([]);
      }
    }

    method AbandonReplayCache() returns (dropped: nat)
      requires CacheCounted(View())
      modifies this`cache, this`cachedEvents
      ensures dropped == SumEvents(Residue(old(View())))
      ensures View() == old(View()).(cache := None, cachedEvents := 0)
    {
      dropped := cachedEvents;
      cachedEvents, cache := 0, None;
    }

    /** Replay a chunk onto the book under construction. */
    method ReplayChunk(r: Replay, chunk: seq<EventBatch>, height: nat, now: nat) returns (r': Replay)
      ensures r' == ReplayAll(r, chunk, height, now)
    {
      var todo := chunk;
      r' := r;
      while todo != []
        invariant ReplayAll(r', todo, height, now) == ReplayAll(r, chunk, height, now)
        decreases |todo|
      {
        r' := ReplayAbove(r', todo[0], height, now);
        todo := todo[1..];
      }
    }

    method CommitInstall(r: Replay, height: nat, now: nat)
      modifies this
      ensures View() == FinishInstall(old(View()), r, height, now)
    {
      var residue := if cache.Some? then cache.value else [];
      cache, cachedEvents := None, 0;
      var r' := ReplayChunk(r, residue, height, now);
      var prior := maxLoss;
      var covers := Max(installCovers, height);
      installCovers := 0;
      book := Some(r'.state.(fallbacks := 0));
      needsResync, maxLoss, urgent := false, 0, false;
      if r'.failed {
        Mark();
      } else if prior > covers {
        needsResync, urgent := true, true;
        maxLoss := if prior == U64_MAX then Max(lastSeen, height) else prior;
      }
    }

    /** Whatever happens to the listener while the install does not hold its lock. */
    method LetRun(events: seq<Event>, ghost c: Chase, height: nat)
      requires c.l == View() && forall i :: 0 <= i < |events| ==> !events[i].Round?
      modifies this
      ensures View() == AdvanceAll(c, events, height).l && AdvanceAll(c, events, height).next == c.next
    {
      var todo := events;
      ghost var d := c;
      while todo != []
        invariant d.l == View() && d.next == c.next && AdvanceAll(d, todo, height) == AdvanceAll(c, events, height)
        invariant forall i :: 0 <= i < |todo| ==> !todo[i].Round?
        decreases |todo|
      {
        assert !todo[0].Round?;
        d := Advance(d, todo[0], height);
        if todo[0].Live? {
          ApplyBatch(todo[0].batch, todo[0].now, todo[0].tidy);
        } else {
          Mark();
        }
        todo := todo[1..];
      }
    }

    /** The phased install, with whatever happens between its lock holds given as windows. */
    method InstallSnapshot(
      snapshot: State, ws: seq<Window>, height: nat, residualMax: nat, maxRounds: nat, now: nat)
      requires forall i, j :: 0 <= i < |ws| && 0 <= j < |ws[i].events| ==> !ws[i].events[j].Round?
      requires CacheCounted(View())
      modifies this
      ensures View() == InstallPhased(BeginChase(old(View()), snapshot), ws, height, residualMax, maxRounds, now)
    {
      var r := Replay(snapshot, 0, false);
      var todo := ws;
      ghost var c := BeginChase(View(), snapshot);
      var round := 0;
      while true
        invariant c.l == View() && c.next == r && c.round == round && CacheCounted(c.l)
        invariant forall i, j :: 0 <= i < |todo| && 0 <= j < |todo[i].events| ==> !todo[i].events[j].Round?
        invariant ChaseDown(c, todo, height, residualMax, maxRounds)
               == ChaseDown(BeginChase(old(View()), snapshot), ws, height, residualMax, maxRounds)
        decreases maxRounds - round
      {
        var w := FirstWindow(todo);
        LetRun(w.events, c, height);
        ghost var c1 := AdvanceAll(c, w.events, height).(round := round);
        CacheStaysCounted(c, w.events, height);
        if cache.None? || cachedEvents <= residualMax {
          CommitInstall(r, height, now);
          return;
        }
        if round >= maxRounds {
          var _ := AbandonReplayCache();
          CommitInstall(r, height, now);
          Mark();
          return;
        }
        var chunk := DrainReplayCache();
        r := ReplayChunk(r, chunk, height, w.now);
        round := round + 1;
        c := Advance(c1, Round(w.now), height);
        todo := LaterWindows(todo);
      }
    }
  }
}
