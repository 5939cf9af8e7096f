/**
 What an install hands over: the book it commits is the snapshot with every cached batch above its
 height applied, in order; and it holds the right orders also when the dump is newer than the height
 the replay is cut at.
 */
module Handoff {
  import opened Types
  import opened MultiBook
  import opened Pairing
  import opened StateMachine
  import opened Clockless
  import opened Install
  import Confluence
  import OverReplay

  // ----- which batches a replay applies, and in what order -----

  /** The batches that carry events of the book and lie above the snapshot. */
  function AboveSnapshot(bs: seq<EventBatch>, height: nat): seq<EventBatch> {
    if bs == [] then []
    else (if !bs[0].Fills? && bs[0].height > height then [bs[0]] else []) + AboveSnapshot(bs[1..], height)
  }

  /** The book after these batches, each as far as it went. */
  function EachApplied(s: State, bs: seq<EventBatch>, now: nat): State
    decreases |bs|
  {
    if bs == [] then s else EachApplied(ApplyAll(s, StepsOf(bs[0], now)).state, bs[1..], now)
  }

  /** No batch meets a step that is rejected where it comes. */
  predicate EachAccepted(s: State, bs: seq<EventBatch>, now: nat)
    decreases |bs|
  {
    bs == [] || (Accepted(s, StepsOf(bs[0], now)) && EachAccepted(ApplyAll(s, StepsOf(bs[0], now)).state, bs[1..], now))
  }

  function StepsOfAll(bs: seq<EventBatch>, now: nat): seq<Step> {
    if bs == [] then [] else StepsOf(bs[0], now) + StepsOfAll(bs[1..], now)
  }

  /** A batch notes its height and time and then brings its events, one by one and in order. */
  lemma StepsOfIs(b: EventBatch, now: nat)
    ensures match b
            case Orders(h, time, events) =>
              && |StepsOf(b, now)| == 1 + |events| && StepsOf(b, now)[0] == BeginStatuses(h, time)
              && (forall i :: 0 <= i < |events| ==> StepsOf(b, now)[1 + i] == OneStatus(events[i], now))
            case BookDiffs(h, time, events) =>
              && |StepsOf(b, now)| == 1 + |events| && StepsOf(b, now)[0] == BeginDiffs(h, time)
              && (forall i :: 0 <= i < |events| ==> StepsOf(b, now)[1 + i] == OneDiff(events[i], now, h))
            case Fills(_, _) => StepsOf(b, now) == []
  {
    match b
    case Orders(_, _, events) => StatusStepsAre(events, now);
    case BookDiffs(h, _, events) => DiffStepsAre(events, now, h);
    case Fills(_, _) =>
  }

  lemma {:induction false} StatusStepsAre(events: seq<Status>, now: nat)
    ensures |StatusSteps(events, now)| == |events|
    ensures forall i :: 0 <= i < |events| ==> StatusSteps(events, now)[i] == OneStatus(events[i], now)
  {
    if events != [] {
      StatusStepsAre(events[1..], now);
    }
  }

  lemma {:induction false} DiffStepsAre(events: seq<Diff>, now: nat, h: nat)
    ensures |DiffSteps(events, now, h)| == |events|
    ensures forall i :: 0 <= i < |events| ==> DiffSteps(events, now, h)[i] == OneDiff(events[i], now, h)
  {
    if events != [] {
      DiffStepsAre(events[1..], now, h);
    }
  }

  lemma AboveOpens(bs: seq<EventBatch>, height: nat)
    requires bs != []
    ensures AboveSnapshot(bs, height)
         == if !bs[0].Fills? && bs[0].height > height then [bs[0]] + AboveSnapshot(bs[1..], height) else AboveSnapshot(bs[1..], height)
  {
  }

  /** Applying the first of several batches and then the others. */
  lemma EachOpens(s: State, b: EventBatch, later: seq<EventBatch>, now: nat)
    ensures EachApplied(s, [b] + later, now) == EachApplied(ApplyAll(s, StepsOf(b, now)).state, later, now)
    ensures EachAccepted(s, [b] + later, now)
            <==> Accepted(s, StepsOf(b, now)) && EachAccepted(ApplyAll(s, StepsOf(b, now)).state, later, now)
    ensures StepsOfAll([b] + later, now) == StepsOf(b, now) + StepsOfAll(later, now)
  {
    assert ([b] + later)[1..] == later;
  }

  /** The events counted for the cache are those its batches bring. */
  lemma {:induction false} CountedEventsAreBrought(bs: seq<EventBatch>, height: nat, now: nat)
    ensures var above := AboveSnapshot(bs, height); SumEvents(above) + |above| == |StepsOfAll(above, now)|
  {
    if bs != [] {
      var b, later := bs[0], AboveSnapshot(bs[1..], height);
      CountedEventsAreBrought(bs[1..], height, now);
      AboveOpens(bs, height);
      if !b.Fills? && b.height > height {
        StepsOfIs(b, now);
        SumEventsCons(b, later);
        assert ([b] + later)[1..] == later;
      }
    }
  }

  lemma {:induction false} SumEventsCons(b: EventBatch, bs: seq<EventBatch>)
    ensures SumEvents([b] + bs) == EventsLen(b) + SumEvents(bs)
  {
    if bs == [] {
      assert [b] + bs == [b] && [b][..0] == [];
    } else {
      assert ([b] + bs)[..|bs|] == [b] + bs[..|bs| - 1];
      SumEventsCons(b, bs[..|bs| - 1]);
    }
  }

  /** A replay applies the batches above its height and no others, and has failed exactly when one of them was rejected. */
  lemma {:induction false} ReplayIsAbove(r: Replay, bs: seq<EventBatch>, height: nat, now: nat)
    ensures var above, r' := AboveSnapshot(bs, height), ReplayAll(r, bs, height, now);
            && r'.state == EachApplied(r.state, above, now)
            && r'.events == r.events + SumEvents(above)
            && (r'.failed <==> r.failed || !EachAccepted(r.state, above, now))
    decreases |bs|
  {
    if bs != [] {
      var b, later := bs[0], AboveSnapshot(bs[1..], height);
      AboveOpens(bs, height);
      ReplayIsAbove(ReplayAbove(r, b, height, now), bs[1..], height, now);
      BatchAppliesIffAccepted(r.state, StepsOf(b, now));
      SumEventsCons(b, later);
      EachOpens(r.state, b, later, now);
    }
  }

  lemma {:induction false} ApplyConcat(s: State, a: seq<Step>, b: seq<Step>)
    ensures Accepted(s, a + b) <==> Accepted(s, a) && Accepted(ApplyAll(s, a).state, b)
    ensures Accepted(s, a) ==> ApplyAll(s, a + b).state == ApplyAll(ApplyAll(s, a).state, b).state
    decreases |a|
  {
    if a == [] {
      assert a + b == b;
    } else {
      assert (a + b)[1..] == a[1..] + b;
      AppliesIffNotRejected(s, a[0]);
      if Apply(s, a[0]).ok {
        ApplyConcat(Apply(s, a[0]).state, a[1..], b);
      }
    }
  }

  /** When none is rejected, the batches are one long run of steps. */
  lemma {:induction false} AcceptedIsOneRun(s: State, bs: seq<EventBatch>, now: nat)
    ensures EachAccepted(s, bs, now) <==> Accepted(s, StepsOfAll(bs, now))
    ensures EachAccepted(s, bs, now) ==> EachApplied(s, bs, now) == ApplyAll(s, StepsOfAll(bs, now)).state
    decreases |bs|
  {
    if bs != [] {
      ApplyConcat(s, StepsOf(bs[0], now), StepsOfAll(bs[1..], now));
      AcceptedIsOneRun(ApplyAll(s, StepsOf(bs[0], now)).state, bs[1..], now);
    }
  }

  /**
   What an install commits, whatever the schedule of live batches, losses and chase rounds: the snapshot
   with everything cached above its height applied in order, stamps and the fallback count aside. The
   flag stays up exactly when one of those batches was rejected (and drift is not tolerated) or, none
   having been, when the recorded loss lies above what the install covers.
   */
  lemma CommittedBookIs(l: Listener, snapshot: State, height: nat, es: seq<Install.Event>, now: nat)
    requires CacheCounted(l)
    requires AdvanceAll(BeginChase(l, snapshot), es, height).l.cache.Some?
    ensures var c := AdvanceAll(BeginChase(l, snapshot), es, height);
            var l' := FinishInstall(c.l, c.next, height, now);
            var above := AboveSnapshot(Residue(l) + Arrivals(es), height);
            && l'.book.Some?
            && Similar(l'.book.value, EachApplied(snapshot, above, now).(fallbacks := 0))
            && (EachAccepted(snapshot, above, now) ==>
                  Similar(l'.book.value, ApplyAll(snapshot, StepsOfAll(above, now)).state.(fallbacks := 0)))
            && (l'.needsResync <==> if EachAccepted(snapshot, above, now) then c.l.maxLoss > Max(c.l.installCovers, height)
                                    else !c.l.tolerateDrift)
  {
    PhasedInstallIsOneReplay(l, snapshot, height, es, now, now);
    var all := Residue(l) + Arrivals(es);
    ReplayIsAbove(Replay(snapshot, 0, false), all, height, now);
    AcceptedIsOneRun(snapshot, AboveSnapshot(all, height), now);
  }

  /** What arrives for the replay in the first `k` windows of an install. */
  function ArrivedIn(ws: seq<Window>, k: nat): seq<EventBatch> {
    if k == 0 then [] else Arrivals(FirstWindow(ws).events) + ArrivedIn(LaterWindows(ws), k - 1)
  }

  /**
   The install chases for a bounded number of rounds, one window before each lock hold; it stops
   early only when the cache is dead or small enough for the residue.
   */
  lemma {:induction false} ChaseIsBounded(c: Chase, ws: seq<Window>, height: nat, residualMax: nat, maxRounds: nat)
    requires c.round <= maxRounds
    ensures var d := ChaseDown(c, ws, height, residualMax, maxRounds);
            && c.round <= d.round <= maxRounds
            && d.arrived == c.arrived + ArrivedIn(ws, d.round - c.round + 1)
            && (d.round == maxRounds || d.l.cache.None? || d.l.cachedEvents <= residualMax)
    decreases maxRounds - c.round
  {
    var w := FirstWindow(ws);
    var c1 := AdvanceAll(c, w.events, height).(round := c.round);
    ArrivedIsArrivals(c, w.events, height);
    if Decide(c1, residualMax, maxRounds) == Chasing {
      var c2, later := Advance(c1, Round(w.now), height), LaterWindows(ws);
      ChaseIsBounded(c2, later, height, residualMax, maxRounds);
      var d := ChaseDown(c2, later, height, residualMax, maxRounds);
      assert ChaseDown(c, ws, height, residualMax, maxRounds) == d;
      Regroup(c.arrived, Arrivals(w.events), ArrivedIn(later, d.round - c2.round + 1));
    } else {
      assert Arrivals(w.events) + [] == Arrivals(w.events);
    }
  }

  /** The chase of a whole install is some schedule, over exactly what arrived in its windows. */
  lemma ScheduleOfChase(l: Listener, snapshot: State, ws: seq<Window>, height: nat, residualMax: nat, maxRounds: nat)
    returns (es: seq<Install.Event>)
    ensures var c0 := BeginChase(l, snapshot);
            var c, d := ChaseDown(c0, ws, height, residualMax, maxRounds), AdvanceAll(c0, es, height);
            && c.l == d.l && c.next == d.next
            && Residue(l) + Arrivals(es) == Residue(l) + ArrivedIn(ws, c.round + 1)
  {
    var c0 := BeginChase(l, snapshot);
    ChaseIsBounded(c0, ws, height, residualMax, maxRounds);
    es := ChaseDownIsASchedule(c0, ws, height, residualMax, maxRounds);
    ArrivedIsArrivals(c0, es, height);
    SameButRound(ChaseDown(c0, ws, height, residualMax, maxRounds), AdvanceAll(c0, es, height));
  }

  lemma SameButRound(c: Chase, d: Chase)
    requires c.(round := 0) == d.(round := 0)
    ensures c.l == d.l && c.next == d.next && c.arrived == d.arrived
  {
  }

  /** The whole install: when it commits with its cache alive, the book has everything that arrived up to then. */
  lemma InstalledBookIs(l: Listener, snapshot: State, ws: seq<Window>, height: nat, residualMax: nat, maxRounds: nat, now: nat)
    requires CacheCounted(l)
    ensures var c := ChaseDown(BeginChase(l, snapshot), ws, height, residualMax, maxRounds);
            var l' := InstallPhased(BeginChase(l, snapshot), ws, height, residualMax, maxRounds, now);
            var above := AboveSnapshot(Residue(l) + ArrivedIn(ws, c.round + 1), height);
            c.l.cache.Some? && c.l.cachedEvents <= residualMax ==>
              l'.book.Some? && Similar(l'.book.value, EachApplied(snapshot, above, now).(fallbacks := 0))
  {
    var c := ChaseDown(BeginChase(l, snapshot), ws, height, residualMax, maxRounds);
    if c.l.cache.Some? && c.l.cachedEvents <= residualMax {
      var es := ScheduleOfChase(l, snapshot, ws, height, residualMax, maxRounds);
      CommittedBookIs(l, snapshot, height, es, now);
    }
  }

  /** An install that gives up commits the snapshot with what it had replayed; only what was still cached is missing. */
  lemma GappedBookIs(l: Listener, snapshot: State, height: nat, es: seq<Install.Event>, now: nat) returns (done: seq<EventBatch>)
    requires CacheCounted(l)
    requires AdvanceAll(BeginChase(l, snapshot), es, height).l.cache.Some?
    ensures var c := AdvanceAll(BeginChase(l, snapshot), es, height);
            var l' := CommitGapped(c, height, now);
            && done + Residue(c.l) == Residue(l) + Arrivals(es)
            && l'.book.Some?
            && Similar(l'.book.value, EachApplied(snapshot, AboveSnapshot(done, height), 0).(fallbacks := 0))
  {
    var c0 := BeginChase(l, snapshot);
    assert Chased(c0, snapshot, height, []) by {
      assert [] + Residue(l) == Residue(l);
      SimilarToItself(snapshot);
    }
    ChaseKeepsInv(c0, snapshot, height, es);
    ArrivedIsArrivals(c0, es, height);
    var c := AdvanceAll(c0, es, height);
    done :| Chased(c, snapshot, height, done);
    ReplayIsAbove(Replay(snapshot, 0, false), done, height, 0);
    var s := EachApplied(snapshot, AboveSnapshot(done, height), 0);
    SameChangeSimilar(c.next.state, s, c.next.state.(fallbacks := 0), s.(fallbacks := 0));
  }

  // ----- the live book -----

  function Arriving(bs: seq<EventBatch>, now: nat): seq<Call> {
    if bs == [] then [] else [Arrive(bs[0], now, None)] + Arriving(bs[1..], now)
  }

  /** What a listener takes of what arrives; anything longer is dropped and marked. */
  function NotOversize(bs: seq<EventBatch>): seq<EventBatch> {
    if bs == [] then [] else (if EventsLen(bs[0]) <= 100_000 then [bs[0]] else []) + NotOversize(bs[1..])
  }

  /** The count of fallbacks aside. */
  ghost predicate SameBook(s: State, t: State) {
    s.(fallbacks := 0) == t.(fallbacks := 0)
  }

  lemma StepIgnoresFallbacks(s: State, t: State, step: Step)
    requires SameBook(s, t)
    ensures SameBook(Apply(s, step).state, Apply(t, step).state) && Apply(s, step).ok == Apply(t, step).ok
  {
    match step
    case BeginStatuses(_, _) =>
    case BeginDiffs(h, _) => PruneIgnoresFallbacks(s, t, h);
    case OneStatus(st, _) =>
      if st.oid in s.news {
        PairIgnoresFallbacks(s.(news := s.news - {st.oid}), t.(news := t.news - {st.oid}), st, s.news[st.oid].sz, s.news[st.oid].insertBefore);
      }
    case OneDiff(d, now, h) => DiffIgnoresFallbacks(s, t, d, now, h);
  }

  lemma PairIgnoresFallbacks(s: State, t: State, st: Status, sz: Sz, anchor: Option<Oid>)
    requires SameBook(s, t)
    ensures var a, b := RestPair(s, st, sz, anchor), RestPair(t, st, sz, anchor); SameBook(a.state, b.state) && a.ok == b.ok
  {
  }

  lemma DiffIgnoresFallbacks(s: State, t: State, d: Diff, now: nat, h: nat)
    requires SameBook(s, t)
    ensures var a, b := ApplyDiff(s, d, now, h), ApplyDiff(t, d, now, h); SameBook(a.state, b.state) && a.ok == b.ok
  {
    match d.kind
    case Malformed =>
    case New(sz, anchor) =>
      if d.oid in s.statuses {
        PairIgnoresFallbacks(s.(statuses := s.statuses - {d.oid}), t.(statuses := t.statuses - {d.oid}), s.statuses[d.oid].status, sz, anchor);
      }
    case Update(_) => UpdateIgnoresFallbacks(s, t, d, now, h);
    case Remove => RemoveIgnoresFallbacks(s, t, d, now, h);
  }

  lemma UpdateIgnoresFallbacks(s: State, t: State, d: Diff, now: nat, h: nat)
    requires SameBook(s, t) && d.kind.Update?
    ensures var a, b := ApplyDiff(s, d, now, h), ApplyDiff(t, d, now, h); SameBook(a.state, b.state) && a.ok == b.ok
  {
    if !Skipped(s, d) {
      var (books, found) := ModifyIn(s.books, d.oid, d.coin, d.kind.newSz);
      PendingIgnoresFallbacks(s.(books := books), t.(books := books), d.oid, Some(d.kind.newSz));
    }
  }

  lemma PendingIgnoresFallbacks(s: State, t: State, oid: Oid, newSz: Option<Sz>)
    requires SameBook(s, t)
    ensures SameBook(ApplyToPending(s, oid, newSz), ApplyToPending(t, oid, newSz))
  {
  }

  lemma RemoveIgnoresFallbacks(s: State, t: State, d: Diff, now: nat, h: nat)
    requires SameBook(s, t) && d.kind.Remove?
    ensures var a, b := ApplyDiff(s, d, now, h), ApplyDiff(t, d, now, h); SameBook(a.state, b.state) && a.ok == b.ok
  {
    if !Skipped(s, d) {
      var (books, found) := CancelIn(s.books, d.oid, d.coin);
      PendingIgnoresFallbacks(s.(books := books), t.(books := books), d.oid, None);
    }
  }

  lemma {:induction false} PruneIgnoresFallbacks(s: State, t: State, h: nat)
    requires SameBook(s, t)
    ensures SameBook(Prune(s, h), Prune(t, h))
    decreases |s.zeroedRecently|
  {
    if s.zeroedRecently != [] && s.zeroedRecently[0].0 + ZEROED_WINDOW_BLOCKS < h {
      PruneIgnoresFallbacks(s.(zeroedRecently := s.zeroedRecently[1..], zeroedSet := s.zeroedSet - {s.zeroedRecently[0].1}),
                            t.(zeroedRecently := t.zeroedRecently[1..], zeroedSet := t.zeroedSet - {t.zeroedRecently[0].1}), h);
    }
  }

  lemma {:induction false} RunIgnoresFallbacks(s: State, t: State, steps: seq<Step>)
    requires SameBook(s, t)
    ensures SameBook(ApplyAll(s, steps).state, ApplyAll(t, steps).state)
    decreases |steps|
  {
    if steps != [] {
      StepIgnoresFallbacks(s, t, steps[0]);
      if Apply(s, steps[0]).ok {
        RunIgnoresFallbacks(Apply(s, steps[0]).state, Apply(t, steps[0]).state, steps[1..]);
      }
    }
  }

  lemma {:induction false} EachIgnoresFallbacks(s: State, t: State, bs: seq<EventBatch>, now: nat)
    requires SameBook(s, t)
    ensures SameBook(EachApplied(s, bs, now), EachApplied(t, bs, now))
    decreases |bs|
  {
    if bs != [] {
      RunIgnoresFallbacks(s, t, StepsOf(bs[0], now));
      EachIgnoresFallbacks(ApplyAll(s, StepsOf(bs[0], now)).state, ApplyAll(t, StepsOf(bs[0], now)).state, bs[1..], now);
    }
  }

  /** Meanwhile the live book goes on: every batch that arrives is applied to it in order, the oversize ones excepted. */
  lemma {:induction false} LiveBookGoesOn(l: Listener, bs: seq<EventBatch>, now: nat)
    requires l.book.Some?
    ensures var l' := DoAll(l, Arriving(bs, now));
            l'.book.Some? && SameBook(l'.book.value, EachApplied(l.book.value, NotOversize(bs), now))
    decreases |bs|
  {
    if bs != [] {
      var l1 := ApplyEventBatch(l, bs[0], now, None);
      assert Arriving(bs, now)[1..] == Arriving(bs[1..], now);
      OneBatchGoesOn(l, bs[0], now);
      LiveBookGoesOn(l1, bs[1..], now);
      FirstGoesOn(l.book.value, l1.book.value, bs[0], NotOversize(bs[1..]), now);
    }
  }

  lemma FirstGoesOn(s0: State, s1: State, b: EventBatch, taken: seq<EventBatch>, now: nat)
    requires SameBook(s1, if EventsLen(b) <= 100_000 then ApplyAll(s0, StepsOf(b, now)).state else s0)
    ensures SameBook(EachApplied(s1, taken, now), EachApplied(s0, (if EventsLen(b) <= 100_000 then [b] else []) + taken, now))
  {
    if EventsLen(b) <= 100_000 {
      EachOpens(s0, b, taken, now);
      EachIgnoresFallbacks(s1, ApplyAll(s0, StepsOf(b, now)).state, taken, now);
    } else {
      assert [] + taken == taken;
      EachIgnoresFallbacks(s1, s0, taken, now);
    }
  }

  lemma OneBatchGoesOn(l: Listener, b: EventBatch, now: nat)
    requires l.book.Some?
    ensures var l' := ApplyEventBatch(l, b, now, None);
            && l'.book.Some?
            && SameBook(l'.book.value, if EventsLen(b) <= 100_000 then ApplyAll(l.book.value, StepsOf(b, now)).state else l.book.value)
  {
    var l1 := l.(lastSeen := Max(l.lastSeen, b.height));
    CachingKeepsBook(l1, b);
    LiveIsApplied(CacheForReplay(l1, b), b, now);
  }

  lemma CachingKeepsBook(l: Listener, b: EventBatch)
    ensures CacheForReplay(l, b).book == l.book
  {
  }

  lemma LiveIsApplied(l: Listener, b: EventBatch, now: nat)
    requires l.book.Some?
    ensures ApplyLive(l, b, now, None).book == Some(Applied(l.book.value, b, now))
  {
  }

  // ----- a dump newer than the cut -----

  predicate Ascending(bs: seq<EventBatch>) {
    forall i, j :: 0 <= i <= j < |bs| ==> bs[i].height <= bs[j].height
  }

  /** The batches a dump at `top` already holds although the replay is cut at `height`. */
  function Within(bs: seq<EventBatch>, height: nat, top: nat): seq<EventBatch> {
    if bs == [] then []
    else (if !bs[0].Fills? && height < bs[0].height <= top then [bs[0]] else []) + Within(bs[1..], height, top)
  }

  lemma {:induction false} NothingWithin(bs: seq<EventBatch>, height: nat, top: nat)
    requires forall i :: 0 <= i < |bs| ==> bs[i].height > top
    ensures Within(bs, height, top) == []
  {
    if bs != [] {
      NothingWithin(bs[1..], height, top);
    }
  }

  /** In block order, what a replay repeats comes in front of what is new to the dump. */
  lemma {:induction false} CutSplits(bs: seq<EventBatch>, height: nat, top: nat)
    requires Ascending(bs) && height <= top
    ensures AboveSnapshot(bs, height) == Within(bs, height, top) + AboveSnapshot(bs, top)
  {
    if bs != [] {
      CutSplits(bs[1..], height, top);
      if bs[0].height > top {
        NothingWithin(bs, height, top);
        NothingWithin(bs[1..], height, top);
      }
    }
  }

  lemma {:induction false} StepsOfAllConcat(a: seq<EventBatch>, b: seq<EventBatch>, now: nat)
    ensures StepsOfAll(a + b, now) == StepsOfAll(a, now) + StepsOfAll(b, now)
  {
    if a == [] {
      assert a + b == b;
    } else {
      assert (a + b)[1..] == a[1..] + b;
      StepsOfAllConcat(a[1..], b, now);
    }
  }

  lemma {:induction false} CleanIsAccepted(s: State, steps: seq<Step>)
    requires Confluence.Clean(s, steps)
    ensures Accepted(s, steps)
    decreases |steps|
  {
    if steps != [] {
      AppliesIffNotRejected(s, steps[0]);
      CleanIsAccepted(Apply(s, steps[0]).state, steps[1..]);
    }
  }

  /**
   What the node wrote after the book `s0`, and a dump that already holds the first part of it. The
   events come in block order with every New after its status, apply, and cross nothing.
   */
  ghost predicate Overlap(s0: State, dump: State, again: seq<Step>, later: seq<Step>, coin: Coin, oid: Oid) {
    && OverReplay.InStep(s0, map[]) && OverReplay.InStep(dump, map[]) && dump.ignoreSpot == s0.ignoreSpot
    && Confluence.Clean(s0, again + later) && Confluence.Clean(dump, again + later)
    && OverReplay.Prompt(map[], again, s0.ignoreSpot) && OverReplay.Prompt(map[], later, s0.ignoreSpot)
    && OverReplay.Legal(RestsIn(s0.books, coin, oid), OverReplay.Ops(map[], again, s0.ignoreSpot), coin, oid)
    && RestsIn(dump.books, coin, oid) == RestsIn(ApplyAll(s0, again).state.books, coin, oid)
  }

  lemma OverlapIsHarmless(s0: State, dump: State, again: seq<Step>, later: seq<Step>, coin: Coin, oid: Oid)
    requires Overlap(s0, dump, again, later, coin, oid)
    ensures RestsIn(ApplyAll(dump, again + later).state.books, coin, oid) == RestsIn(ApplyAll(s0, again + later).state.books, coin, oid)
  {
    OverReplay.RunConcat(s0, again, later);
    OverReplay.RunConcat(dump, again, later);
    OverReplay.RunPerformsOps(s0, map[], again, coin, oid);
    OverReplay.RunPerformsOps(dump, map[], again, coin, oid);
    OverReplay.ReplayIsIdempotent(RestsIn(s0.books, coin, oid), OverReplay.Ops(map[], again, s0.ignoreSpot), coin, oid);
    OverReplay.RunPerformsOps(ApplyAll(s0, again).state, map[], later, coin, oid);
    OverReplay.RunPerformsOps(ApplyAll(dump, again).state, map[], later, coin, oid);
  }

  /**
   The handoff: `s0` is the node's book at the height the replay is cut at, and the dump is the node's
   book at that height or any later one. Whatever the schedule of the chase, the committed book holds
   exactly the orders that `s0` holds after every cached batch.
   */
  lemma InstallIsSeamless(
    l: Listener, s0: State, dump: State, height: nat, top: nat, es: seq<Install.Event>, now: nat, coin: Coin, oid: Oid)
    requires CacheCounted(l) && AdvanceAll(BeginChase(l, dump), es, height).l.cache.Some?
    requires Ascending(Residue(l) + Arrivals(es)) && height <= top
    requires var bs := Residue(l) + Arrivals(es);
             Overlap(s0, dump, StepsOfAll(Within(bs, height, top), now), StepsOfAll(AboveSnapshot(bs, top), now), coin, oid)
    ensures var c := AdvanceAll(BeginChase(l, dump), es, height);
            var above := AboveSnapshot(Residue(l) + Arrivals(es), height);
            var l' := FinishInstall(c.l, c.next, height, now);
            && l'.book.Some?
            && RestsIn(l'.book.value.books, coin, oid) == RestsIn(ApplyAll(s0, StepsOfAll(above, now)).state.books, coin, oid)
  {
    var bs := Residue(l) + Arrivals(es);
    var again, later := StepsOfAll(Within(bs, height, top), now), StepsOfAll(AboveSnapshot(bs, top), now);
    CommittedBookIs(l, dump, height, es, now);
    CutSplits(bs, height, top);
    StepsOfAllConcat(Within(bs, height, top), AboveSnapshot(bs, top), now);
    CleanIsAccepted(dump, again + later);
    AcceptedIsOneRun(dump, AboveSnapshot(bs, height), now);
    OverlapIsHarmless(s0, dump, again, later, coin, oid);
  }
}
