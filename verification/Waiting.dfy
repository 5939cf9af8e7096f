/**
 What becomes of the halves that wait, and of the rest of a state that is not its books: stamps and
 ages, what a maintenance pass drops and reports, the window in which a zeroed order is remembered,
 heights and times, and which coins a batch reports.
 */
module Waiting {
  import opened Types
  import opened Levels
  import opened BookCore
  import opened RestingMap
  import opened Snapshots
  import opened Adding
  import opened MultiBook
  import opened Pairing
  import opened StateMachine
  import opened Confluence

  // ----- where a waiting half comes from -----

  /** This New arrived with one of the steps, which gave it its stamp; an Update may have resized it since. */
  predicate ArrivedAsNew(step: Step, oid: Oid, p: PendingNew) {
    && step.OneDiff? && step.diff.oid == oid && step.diff.kind.New?
    && p.at == step.now && p.insertBefore == step.diff.kind.insertBefore && p.protocolUser == step.diff.protocolUser
  }

  ghost predicate SameNew(s: State, oid: Oid, p: PendingNew) {
    oid in s.news && p == s.news[oid].(sz := p.sz)
  }

  lemma StepStampsNew(s: State, step: Step, oid: Oid)
    requires oid in Apply(s, step).state.news
    ensures var p := Apply(s, step).state.news[oid]; SameNew(s, oid, p) || ArrivedAsNew(step, oid, p)
  {
    match step
    case BeginStatuses(_, _) =>
    case BeginDiffs(h, _) => PruneOnlyZeroed(s, h);
    case OneStatus(st, _) =>
    case OneDiff(d, now, h) => DiffStampsNew(s, d, now, h, oid);
  }

  lemma DiffStampsNew(s: State, d: Diff, now: nat, h: nat, oid: Oid)
    requires oid in ApplyDiff(s, d, now, h).state.news
    ensures var p := ApplyDiff(s, d, now, h).state.news[oid]; SameNew(s, oid, p) || ArrivedAsNew(OneDiff(d, now, h), oid, p)
  {
    if !Skipped(s, d) && !d.kind.New? {
      ResizeStampsNew(s, d, now, h, oid);
    }
  }

  lemma ResizeStampsNew(s: State, d: Diff, now: nat, h: nat, oid: Oid)
    requires !Skipped(s, d) && !d.kind.New? && oid in ApplyDiff(s, d, now, h).state.news
    ensures SameNew(s, oid, ApplyDiff(s, d, now, h).state.news[oid])
  {
    match d.kind
    case Malformed =>
    case Update(newSz) =>
      PendingStampsNew(s, d.oid, Some(newSz), oid);
      UpdateNewsAre(s, d, now, h);
    case Remove =>
      PendingStampsNew(s, d.oid, None, oid);
      RemoveNewsAre(s, d, now, h);
  }

  lemma UpdateNewsAre(s: State, d: Diff, now: nat, h: nat)
    requires !Skipped(s, d) && d.kind.Update?
    ensures var news := ApplyDiff(s, d, now, h).state.news;
            news == s.news || news == ApplyToPending(s, d.oid, Some(d.kind.newSz)).news
  {
  }

  lemma RemoveNewsAre(s: State, d: Diff, now: nat, h: nat)
    requires !Skipped(s, d) && d.kind.Remove?
    ensures var news := ApplyDiff(s, d, now, h).state.news; news == s.news || news == ApplyToPending(s, d.oid, None).news
  {
  }

  lemma PendingStampsNew(s: State, resized: Oid, newSz: Option<Sz>, oid: Oid)
    ensures ApplyToPending(s, resized, newSz).news.Keys <= s.news.Keys
    ensures var s' := ApplyToPending(s, resized, newSz); oid in s'.news ==> SameNew(s, oid, s'.news[oid])
  {
  }

  /** A New that waits after a batch waited before it, or carries the time, anchor and owner it arrived with. */
  lemma {:induction false} WaitingNewIsStamped(s: State, steps: seq<Step>, oid: Oid)
    requires oid in ApplyAll(s, steps).state.news
    ensures var p := ApplyAll(s, steps).state.news[oid];
            SameNew(s, oid, p) || exists i :: 0 <= i < |steps| && ArrivedAsNew(steps[i], oid, p)
    decreases |steps|
  {
    if steps != [] {
      var o, p := Apply(s, steps[0]), ApplyAll(s, steps).state.news[oid];
      if o.ok {
        WaitingNewIsStamped(o.state, steps[1..], oid);
        if i :| 0 <= i < |steps[1..]| && ArrivedAsNew(steps[1..][i], oid, p) {
          assert steps[i + 1] == steps[1..][i];
        } else {
          StepStampsNew(s, steps[0], oid);
        }
      } else {
        StepStampsNew(s, steps[0], oid);
      }
    }
  }

  lemma StepStampsStatus(s: State, step: Step, oid: Oid)
    requires oid in Apply(s, step).state.statuses
    ensures var p := Apply(s, step).state.statuses[oid];
            (oid in s.statuses && p == s.statuses[oid]) || (step == OneStatus(p.status, p.at) && p.status.oid == oid)
  {
    match step
    case BeginStatuses(_, _) =>
    case BeginDiffs(h, _) => PruneOnlyZeroed(s, h);
    case OneStatus(st, _) =>
    case OneDiff(d, now, h) => DiffQueuesNoStatus(s, d, now, h);
  }

  /** A status that waits after a batch waited before it, or is the one that arrived at the time it is stamped with. */
  lemma {:induction false} WaitingStatusIsStamped(s: State, steps: seq<Step>, oid: Oid)
    requires oid in ApplyAll(s, steps).state.statuses
    ensures var p := ApplyAll(s, steps).state.statuses[oid];
            (oid in s.statuses && p == s.statuses[oid]) || (OneStatus(p.status, p.at) in steps && p.status.oid == oid)
    decreases |steps|
  {
    if steps != [] {
      var o := Apply(s, steps[0]);
      if o.ok {
        WaitingStatusIsStamped(o.state, steps[1..], oid);
        var p := ApplyAll(s, steps).state.statuses[oid];
        if OneStatus(p.status, p.at) in steps[1..] && p.status.oid == oid {
          assert OneStatus(p.status, p.at) in steps;
        } else {
          StepStampsStatus(s, steps[0], oid);
        }
      } else {
        StepStampsStatus(s, steps[0], oid);
      }
    }
  }

  // ----- the maintenance pass -----

  /** Whatever is kept is younger than the age, and when the cap does not bite everything younger is kept. */
  ghost predicate KeptWhileYoung<V>(m: map<Oid, V>, at: V -> nat, now: nat, kept: map<Oid, V>) {
    && (forall oid :: oid in kept ==> oid in m && kept[oid] == m[oid] && now < at(m[oid]) + 60)
    && |kept| <= 200_000
    && (|kept| < 200_000 ==> forall oid :: oid in m && now < at(m[oid]) + 60 ==> oid in kept)
    && (forall oid, other :: oid in m && now < at(m[oid]) + 60 && oid !in kept && other in kept ==> at(m[oid]) <= at(m[other]))
  }

  lemma {:induction false} SmallerMap<V>(a: map<Oid, V>, b: map<Oid, V>)
    requires a.Keys <= b.Keys
    ensures |a| <= |b| && (|a| == |b| ==> a.Keys == b.Keys)
  {
    var gone := b.Keys - a.Keys;
    assert b.Keys == a.Keys + gone;
    assert |b| == |a| + |gone|;
  }

  lemma OldestGoFirst<V>(m: map<Oid, V>, at: V -> nat, now: nat, young: map<Oid, V>, kept: map<Oid, V>)
    requires forall oid :: oid in young <==> oid in m && now < at(m[oid]) + 60
    requires forall oid :: oid in young ==> young[oid] == m[oid]
    requires OldestDropped(young, at, 200_000, kept)
    ensures KeptWhileYoung(m, at, now, kept)
    ensures |young| > 200_000 <==> exists oid :: oid in young && oid !in kept
  {
    SmallerMap(kept, young);
    if |young| > 200_000 {
      assert kept.Keys != young.Keys;
      assert exists oid :: oid in young.Keys && oid !in kept.Keys by {
        assert !(young.Keys <= kept.Keys);
      }
    } else {
      assert kept.Keys == young.Keys;
    }
  }

  /** A waiting New that goes although it is young, or although somebody other than the protocol placed its order. */
  predicate LosesNew(s: State, now: nat, t: Tidying, oid: Oid) {
    oid in s.news && oid !in t.news && (!s.news[oid].protocolUser || now < s.news[oid].at + 60)
  }

  predicate LosesStatus(s: State, now: nat, t: Tidying, oid: Oid) {
    oid in s.statuses && oid !in t.statuses && now < s.statuses[oid].at + 60
  }

  /**
   A maintenance pass lets go of halves that have waited a minute, and of the oldest of more than 200 000;
   it reports a loss exactly when a New goes that was young or not the protocol's, or a young status goes.
   */
  lemma MaintenanceIs(s: State, now: nat, t: Tidying)
    requires Cleans(s, now, t)
    ensures KeptWhileYoung(s.statuses, (p: PendingStatus) => p.at, now, t.statuses)
    ensures KeptWhileYoung(s.news, (p: PendingNew) => p.at, now, t.news)
    ensures t.lost <==> (exists oid :: LosesNew(s, now, t, oid)) || (exists oid :: LosesStatus(s, now, t, oid))
  {
    var youngStatuses, youngNews := YoungStatuses(s.statuses, now), YoungNews(s.news, now);
    OldestGoFirst(s.statuses, (p: PendingStatus) => p.at, now, youngStatuses, t.statuses);
    OldestGoFirst(s.news, (p: PendingNew) => p.at, now, youngNews, t.news);
    if |youngStatuses| > 200_000 {
      var oid :| oid in youngStatuses && oid !in t.statuses;
      assert LosesStatus(s, now, t, oid);
    }
    if |youngNews| > 200_000 {
      var oid :| oid in youngNews && oid !in t.news;
      assert LosesNew(s, now, t, oid);
    }
    if LostNew(s.news, now) {
      var oid :| oid in s.news && now >= s.news[oid].at + PENDING_MAX_AGE && !s.news[oid].protocolUser;
      assert LosesNew(s, now, t, oid);
    }
  }

  /** The pass changes nothing that rests, and a coin keeps its book exactly while something rests in it. */
  lemma MaintenanceKeepsBooks(s: State, now: nat, t: Tidying, coin: Coin, oid: Oid)
    requires Cleans(s, now, t) && BooksInv(s.books)
    ensures RestsIn(Tidied(s, t).books, coin, oid) == RestsIn(s.books, coin, oid)
    ensures coin in Tidied(s, t).books <==> exists x :: RestsIn(s.books, coin, x).Some?
  {
    CompactAllRests(s.books, coin, oid);
  }

  // ----- the window of zeroed orders -----

  function OidsOf(zs: seq<(nat, Oid)>): set<Oid> {
    set z | z in zs :: z.1
  }

  /** Zeroings of more than 64 blocks ago are forgotten, from the front up to the first one that is not. */
  lemma {:induction false} PruneIs(s: State, h: nat) returns (k: nat)
    ensures k <= |s.zeroedRecently|
    ensures forall i :: 0 <= i < k ==> s.zeroedRecently[i].0 + 64 < h
    ensures k < |s.zeroedRecently| ==> h <= s.zeroedRecently[k].0 + 64
    ensures Prune(s, h) == s.(zeroedRecently := s.zeroedRecently[k..], zeroedSet := s.zeroedSet - OidsOf(s.zeroedRecently[..k]))
    decreases |s.zeroedRecently|
  {
    k := 0;
    var zs := s.zeroedRecently;
    if zs != [] && zs[0].0 + 64 < h {
      var s1 := s.(zeroedRecently := zs[1..], zeroedSet := s.zeroedSet - {zs[0].1});
      assert Prune(s, h) == Prune(s1, h);
      var j := PruneIs(s1, h);
      k := j + 1;
      OidsOfFirst(zs, j);
      TakenTwice(s.zeroedSet, zs[0].1, OidsOf(zs[1..][..j]));
    } else {
      assert OidsOf(zs[..0]) == {};
    }
  }

  lemma TakenTwice(zeroed: set<Oid>, first: Oid, later: set<Oid>)
    ensures zeroed - {first} - later == zeroed - ({first} + later)
  {
  }

  /** So every batch of diffs begins; a batch of statuses forgets none. */
  lemma BatchForgetsZeroings(s: State, h: nat, time: nat) returns (k: nat)
    ensures k <= |s.zeroedRecently|
    ensures forall i :: 0 <= i < k ==> s.zeroedRecently[i].0 + 64 < h
    ensures k < |s.zeroedRecently| ==> h <= s.zeroedRecently[k].0 + 64
    ensures var s' := Apply(s, BeginDiffs(h, time)).state;
            s'.zeroedRecently == s.zeroedRecently[k..] && s'.zeroedSet == s.zeroedSet - OidsOf(s.zeroedRecently[..k])
    ensures var s' := Apply(s, BeginStatuses(h, time)).state;
            s'.zeroedRecently == s.zeroedRecently && s'.zeroedSet == s.zeroedSet
  {
    k := PruneIs(s, h);
  }

  lemma OidsOfFirst(zs: seq<(nat, Oid)>, j: nat)
    requires zs != [] && j < |zs|
    ensures OidsOf(zs[..j + 1]) == {zs[0].1} + OidsOf(zs[1..][..j]) && zs[1..][j..] == zs[j + 1..]
  {
    assert zs[..j + 1] == [zs[0]] + zs[1..][..j];
  }

  /** An order has been resized to zero: it is gone, and the zeroing is remembered at the end. */
  lemma ZeroingIs(s: State, d: Diff, now: nat, h: nat)
    requires BooksInv(s.books) && !Skipped(s, d) && d.kind == Update(0)
    requires RestsIn(s.books, d.coin, d.oid).Some? && d.oid !in s.zeroedSet
    ensures var s' := Apply(s, OneDiff(d, now, h)).state;
            && s' == s.(books := s'.books, zeroedSet := s.zeroedSet + {d.oid}, zeroedRecently := s.zeroedRecently + [(h, d.oid)])
            && BooksInv(s'.books) && RestsIn(s'.books, d.coin, d.oid).None?
            && Apply(s, OneDiff(d, now, h)).ok
  {
    ModifyInIsResized(s.books, d.oid, d.coin, 0);
  }

  /** A Remove of an order that is gone but whose zeroing is remembered forgets the zeroing, and only that. */
  lemma RemoveIsAbsorbed(s: State, d: Diff, now: nat, h: nat)
    requires BooksInv(s.books) && !Skipped(s, d) && d.kind.Remove?
    requires RestsIn(s.books, d.coin, d.oid).None? && d.oid in s.zeroedSet
    ensures var s' := Apply(s, OneDiff(d, now, h)).state; s' == s.(books := s'.books, zeroedSet := s.zeroedSet - {d.oid})
    ensures Resized(s.books, d.coin, d.oid, 0, Apply(s, OneDiff(d, now, h)).state.books)
  {
    CancelInIsResized(s.books, d.oid, d.coin);
  }

  lemma PruneKeepsRecent(s: State, h: nat, oid: Oid, at: nat)
    requires s.zeroedRecently != [] && s.zeroedRecently[|s.zeroedRecently| - 1] == (at, oid) && h <= at + 64
    requires oid in s.zeroedSet && oid !in OidsOf(s.zeroedRecently[..|s.zeroedRecently| - 1])
    ensures var s' := Prune(s, h); oid in s'.zeroedSet && s' == s.(zeroedSet := s'.zeroedSet, zeroedRecently := s'.zeroedRecently)
  {
    var k := PruneIs(s, h);
    var n := |s.zeroedRecently| - 1;
    assert k <= n;
    assert OidsOf(s.zeroedRecently[..k]) <= OidsOf(s.zeroedRecently[..n]) by {
      forall z | z in s.zeroedRecently[..k]
        ensures z in s.zeroedRecently[..n]
      {
        assert s.zeroedRecently[..k] <= s.zeroedRecently[..n];
      }
    }
  }

  /** The Remove of an order that an Update took to zero at most 64 blocks earlier changes nothing: no waiting New is dropped. */
  lemma ZeroedRemoveIsAbsorbed(s: State, zero: Diff, gone: Diff, now: nat, h: nat, later: nat, time: nat)
    requires BooksInv(s.books) && RestsIn(s.books, zero.coin, zero.oid).Some?
    requires zero.kind == Update(0) && gone.kind.Remove? && (gone.coin, gone.oid) == (zero.coin, zero.oid) && !Skipped(s, zero)
    requires zero.oid !in s.zeroedSet && zero.oid !in OidsOf(s.zeroedRecently) && later <= h + 64
    ensures var t := Apply(Apply(s, OneDiff(zero, now, h)).state, BeginDiffs(later, time)).state;
            var s' := Apply(t, OneDiff(gone, now, later)).state;
            && s'.news == s.news && s'.statuses == s.statuses && zero.oid !in s'.zeroedSet
            && (forall c, x :: RestsIn(s'.books, c, x) == RestsIn(t.books, c, x))
  {
    var s1 := Apply(s, OneDiff(zero, now, h)).state;
    ZeroingIs(s, zero, now, h);
    assert s1.zeroedRecently[..|s.zeroedRecently|] == s.zeroedRecently;
    PruneKeepsRecent(s1, later, zero.oid, h);
    RemoveIsAbsorbed(Apply(s1, BeginDiffs(later, time)).state, gone, now, later);
  }

  // ----- heights and times -----

  lemma {:induction false} EventsKeepClock(s: State, steps: seq<Step>)
    requires forall i :: 0 <= i < |steps| ==> steps[i].OneStatus? || steps[i].OneDiff?
    ensures var s' := ApplyAll(s, steps).state; (s'.height, s'.time) == (s.height, s.time)
    decreases |steps|
  {
    if steps != [] {
      EventKeepsClock(s, steps[0]);
      EventsKeepClock(Apply(s, steps[0]).state, steps[1..]);
    }
  }

  lemma EventKeepsClock(s: State, step: Step)
    requires step.OneStatus? || step.OneDiff?
    ensures var s' := Apply(s, step).state; (s'.height, s'.time) == (s.height, s.time)
  {
    if step.OneDiff? {
      DiffKeepsClock(s, step.diff, step.now, step.height);
    }
  }

  lemma DiffKeepsClock(s: State, d: Diff, now: nat, h: nat)
    ensures var s' := ApplyDiff(s, d, now, h).state; (s'.height, s'.time) == (s.height, s.time)
  {
  }

  /** A batch moves the state to its height and time unless the state is past it already, whether or not it applies. */
  lemma BatchMovesClock(s: State, first: Step, events: seq<Step>)
    requires first.BeginStatuses? || first.BeginDiffs?
    requires forall i :: 0 <= i < |events| ==> events[i].OneStatus? || events[i].OneDiff?
    ensures var s' := ApplyAll(s, [first] + events).state;
            (s'.height, s'.time) == if s.height <= first.height then (first.height, first.time) else (s.height, s.time)
  {
    if first.BeginDiffs? {
      PruneOnlyZeroed(s, first.height);
    }
    FirstStep(s, first, events);
    EventsKeepClock(Apply(s, first).state, events);
  }

  // ----- what a batch reports, and what it leaves when it fails -----

  predicate Names(step: Step, coin: Coin) {
    match step
    case OneStatus(st, _) => st.coin == coin
    case OneDiff(d, _, _) => d.coin == coin
    case _ => false
  }

  /** A reported coin is named by an event of the batch, or by a status that was waiting for one. */
  lemma {:induction false} ReportedIsNamed(s: State, steps: seq<Step>, coin: Coin)
    requires coin in ApplyAll(s, steps).changed
    ensures (exists i :: 0 <= i < |steps| && Names(steps[i], coin))
            || (exists oid :: oid in s.statuses && s.statuses[oid].status.coin == coin)
    decreases |steps|
  {
    var o := Apply(s, steps[0]);
    if coin in o.changed {
      StepNames(s, steps[0], coin);
    } else {
      ReportedIsNamed(o.state, steps[1..], coin);
      if i :| 0 <= i < |steps[1..]| && Names(steps[1..][i], coin) {
        assert steps[i + 1] == steps[1..][i];
      } else {
        var oid :| oid in o.state.statuses && o.state.statuses[oid].status.coin == coin;
        StepStampsStatus(s, steps[0], oid);
        assert oid in s.statuses || Names(steps[0], coin);
      }
    }
  }

  lemma StepNames(s: State, step: Step, coin: Coin)
    requires coin in Apply(s, step).changed
    ensures Names(step, coin) || (exists oid :: oid in s.statuses && s.statuses[oid].status.coin == coin)
  {
  }

  /** A step that is rejected reports nothing and changes nothing, except that the half that had been waiting is gone. */
  lemma RejectedStepIs(s: State, step: Step)
    requires Rejects(s, step)
    ensures Apply(s, step).changed == {} && !Apply(s, step).ok
    ensures Apply(s, step).state == match step
            case OneStatus(st, _) => s.(news := s.news - {st.oid})
            case OneDiff(d, _, _) => if d.kind.New? then s.(statuses := s.statuses - {d.oid}) else s
            case _ => s
  {
  }

  // ----- where a pair rests -----

  /**
   Whichever half came first, the order takes its place in the queue right in front of its anchor when
   that is queued there, and else at the back, which is counted when it had named one.
   */
  lemma PairTakesItsPlace(s: State, st: Status, d: Diff, now: nat, h: nat) returns (p: nat)
    requires Halves(s, st, d) && GoesIn(st)
    ensures var a := ApplyAll(s, [OneStatus(st, now), OneDiff(d, now, h)]).state;
            var b := ApplyAll(s, [OneDiff(d, now, h), OneStatus(st, now)]).state;
            var o, anchor := OrderOf(st, d), d.kind.insertBefore;
            var q := QueueAt(BookOf(s.books, o.coin), o.side, o.px);
            && Spliced(q, o, anchor, QueueAt(BookOf(a.books, o.coin), o.side, o.px), p)
            && b.books == a.books
            && a.fallbacks == b.fallbacks == s.fallbacks + if anchor.Some? && !HasOid(q, anchor.value) then 1 else 0
  {
    GoesInIsInserted(st);
    TwoSteps(s, OneStatus(st, now), OneDiff(d, now, h));
    TwoSteps(s, OneDiff(d, now, h), OneStatus(st, now));
    var o := OrderOf(st, d);
    var book := BookOf(s.books, o.coin);
    assert BookInv(book);
    AddRests(book, o, d.kind.insertBefore, o.oid);
    RestsIffIndexed(book, o.oid);
    p := AddPlacesTheRemainder(book, o, d.kind.insertBefore, o.px);
  }
}
