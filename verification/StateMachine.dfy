/**
 OrderBookState as the object it is: fields updated event by event, batches applied in
 loops, and the maintenance pass that bounds the two caches of waiting halves.
 */
module StateMachine {
  import opened Types
  import opened Levels
  import opened MultiBook
  import opened Pairing

  const MAX_PENDING: nat := 200_000
  const PENDING_MAX_AGE: nat := 60

  function StatusSteps(events: seq<Status>, now: nat): seq<Step> {
    if events == [] then [] else [OneStatus(events[0], now)] + StatusSteps(events[1..], now)
  }

  function DiffSteps(events: seq<Diff>, now: nat, height: nat): seq<Step> {
    if events == [] then [] else [OneDiff(events[0], now, height)] + DiffSteps(events[1..], now, height)
  }

  // ----- bounding a cache -----

  lemma {:induction false} OldestExists<V>(m: map<Oid, V>, at: V -> nat)
    requires m != map[]
    ensures exists o :: IsOldest(m, at, o)
    decreases |m|
  {
    var x :| x in m;
    if z :| z in m && z != x {
      var rest := m - {x};
      assert z in rest && rest.Keys == m.Keys - {x};
      OldestExists(rest, at);
      var y :| IsOldest(rest, at, y);
      assert forall o :: o in m ==> o == x || o in rest;
      assert IsOldest(m, at, if at(m[x]) <= at(m[y]) then x else y);
    } else {
      assert IsOldest(m, at, x);
    }
  }

  predicate IsOldest<V>(m: map<Oid, V>, at: V -> nat, o: Oid) {
    o in m && forall p :: p in m ==> at(m[o]) <= at(m[p])
  }

  /** `kept` is what is left of `m` when only its oldest entries are dropped, as many as it takes to reach the cap. */
  ghost predicate OldestDropped<V>(m: map<Oid, V>, at: V -> nat, cap: nat, kept: map<Oid, V>) {
    && (forall o :: o in kept ==> o in m && kept[o] == m[o])
    && |kept| == Min(|m|, cap)
    && (forall gone, o :: gone in m && gone !in kept && o in kept ==> at(m[gone]) <= at(kept[o]))
  }

  method EvictOldest<V>(m: map<Oid, V>, at: V -> nat, cap: nat) returns (kept: map<Oid, V>)
    ensures OldestDropped(m, at, cap, kept)
  {
    kept := m;
    while |kept| > cap
      invariant forall o :: o in kept ==> o in m && kept[o] == m[o]
      invariant |kept| >= Min(|m|, cap) && |kept| <= |m|
      invariant forall gone, o :: gone in m && gone !in kept && o in kept ==> at(m[gone]) <= at(kept[o])
      decreases |kept|
    {
      OldestExists(kept, at);
      var oldest :| IsOldest(kept, at, oldest);
      assert (kept - {oldest}).Keys == kept.Keys - {oldest};
      kept := kept - {oldest};
    }
  }

  function YoungStatuses(m: map<Oid, PendingStatus>, now: nat): map<Oid, PendingStatus> {
    map o | o in m && now < m[o].at + PENDING_MAX_AGE :: m[o]
  }

  function YoungNews(m: map<Oid, PendingNew>, now: nat): map<Oid, PendingNew> {
    map o | o in m && now < m[o].at + PENDING_MAX_AGE :: m[o]
  }

  /** A New that is too old to be paired and whose order somebody other than the protocol placed. */
  predicate LostNew(m: map<Oid, PendingNew>, now: nat) {
    exists o :: o in m && now >= m[o].at + PENDING_MAX_AGE && !m[o].protocolUser
  }

  // ----- the maintenance pass -----

  /** What a maintenance pass leaves of a state, and whether something that may have mattered was dropped. */
  datatype Tidying = Tidying(books: Books, statuses: map<Oid, PendingStatus>, news: map<Oid, PendingNew>, lost: bool)

  function Tidied(s: State, t: Tidying): State {
    s.(books := t.books, statuses := t.statuses, news := t.news)
  }

  /** Entries past their age go, then the oldest ones over the cap; the loss report is exact. */
  ghost predicate Cleans(s: State, now: nat, t: Tidying) {
    var youngStatuses, youngNews := YoungStatuses(s.statuses, now), YoungNews(s.news, now);
    && OldestDropped(youngStatuses, (p: PendingStatus) => p.at, MAX_PENDING, t.statuses)
    && OldestDropped(youngNews, (p: PendingNew) => p.at, MAX_PENDING, t.news)
    && (t.lost <==> LostNew(s.news, now) || |youngStatuses| > MAX_PENDING || |youngNews| > MAX_PENDING)
    && t.books == CompactAll(s.books)
  }

  /** cleanup_stale_pending. */
  method Tidy(s: State, now: nat) returns (t: Tidying)
    ensures Cleans(s, now, t)
  {
    var lost := LostNew(s.news, now);
    var statuses, news := YoungStatuses(s.statuses, now), YoungNews(s.news, now);
    lost := lost || |statuses| > MAX_PENDING || |news| > MAX_PENDING;
    statuses := EvictOldest(statuses, (p: PendingStatus) => p.at, MAX_PENDING);
    news := EvictOldest(news, (p: PendingNew) => p.at, MAX_PENDING);
    t := Tidying(CompactAll(s.books), statuses, news, lost);
  }

  // ----- whole lives of a state -----

  datatype Event = Batch(steps: seq<Step>) | Maintenance(now: nat)

  /** One thing that happens to a state; a batch may fail half way. */
  ghost predicate Happens(s: State, e: Event, s': State) {
    match e
    case Batch(steps) => s' == ApplyAll(s, steps).state
    case Maintenance(now) => exists t :: Cleans(s, now, t) && s' == Tidied(s, t)
  }

  /** `states` are the states a life passes through, one more than its events. */
  ghost predicate Life(states: seq<State>, events: seq<Event>) {
    |states| == |events| + 1 && forall i :: 0 <= i < |events| ==> Happens(states[i], events[i], states[i + 1])
  }

  lemma EventKeepsCachesDisjoint(s: State, e: Event, s': State)
    requires CachesDisjoint(s) && Happens(s, e, s')
    ensures CachesDisjoint(s')
  {
    match e
    case Batch(steps) => RunKeepsCachesDisjoint(s, steps);
    case Maintenance(now) =>
      var t :| Cleans(s, now, t) && s' == Tidied(s, t);
      assert forall oid :: oid in t.statuses ==> oid in s.statuses;
      assert forall oid :: oid in t.news ==> oid in s.news;
  }

  /** No oid ever waits in both caches: over batches, failing ones included, and maintenance passes, in any order. */
  lemma {:induction false} LifeKeepsCachesDisjoint(states: seq<State>, events: seq<Event>, i: nat)
    requires Life(states, events) && CachesDisjoint(states[0]) && i < |states|
    ensures CachesDisjoint(states[i])
    decreases i
  {
    if i > 0 {
      LifeKeepsCachesDisjoint(states, events, i - 1);
      assert Happens(states[i - 1], events[i - 1], states[i - 1 + 1]);
      EventKeepsCachesDisjoint(states[i - 1], events[i - 1], states[i]);
    }
  }

  class OrderBookState {
    var books: Books
    var statuses: map<Oid, PendingStatus>
    var news: map<Oid, PendingNew>
    var zeroedRecently: seq<(nat, Oid)>
    var zeroedSet: set<Oid>
    var fallbacks: nat
    var height: nat
    var time: nat
    const ignoreSpot: bool

    ghost function View(): State
      reads this
    {
      State(books, statuses, news, zeroedRecently, zeroedSet, fallbacks, height, time, ignoreSpot)
    }

    constructor (books: Books, height: nat, time: nat, ignoreSpot: bool)
      ensures View() == State(books, map[], map[], [], {}, 0, height, time, ignoreSpot)
    {
      this.books, this.height, this.time, this.ignoreSpot := books, height, time, ignoreSpot;
      statuses, news, zeroedRecently, zeroedSet, fallbacks := map[], map[], [], {}, 0;
    }

    method RestOrder(st: Status, sz: Sz, anchor: Option<Oid>) returns (ok: bool, changed: set<Coin>)
      modifies this
      ensures Outcome(View(), changed, ok) == RestPair(old(View()), st, sz, anchor)
    {
      if st.parsed.None? {
        return false, {};
      }
      var order := Order(st.coin, st.oid, st.parsed.value.side, st.parsed.value.px, sz);
      var (books', fellBack) := AddTo(books, order, anchor);
      books := books';
      if fellBack {
        fallbacks := fallbacks + 1;
      }
      ok, changed := true, {st.coin};
    }

    method ApplyOneStatus(st: Status, now: nat) returns (ok: bool, changed: set<Coin>)
      modifies this
      ensures Outcome(View(), changed, ok) == ApplyStatus(old(View()), st, now)
    {
      if st.oid in news {
        var waiting := news[st.oid];
        news := news - {st.oid};
        ok, changed := RestOrder(st, waiting.sz, waiting.insertBefore);
      } else {
        if InsertedIntoBook(st) {
          statuses := statuses[st.oid := PendingStatus(st, now)];
        }
        ok, changed := true, {};
      }
    }

    method ApplyDiffToPendingNew(oid: Oid, newSz: Option<Sz>)
      modifies this`news
      ensures View() == ApplyToPending(old(View()), oid, newSz)
    {
      if oid in news {
        if newSz.Some? && newSz.value > 0 {
          news := news[oid := news[oid].(sz := newSz.value)];
        } else {
          news := news - {oid};
        }
      }
    }

    method ApplyOneDiff(d: Diff, now: nat, blockHeight: nat) returns (ok: bool, changed: set<Coin>)
      modifies this
      ensures Outcome(View(), changed, ok) == ApplyDiff(old(View()), d, now, blockHeight)
    {
      if IsSpot(d.coin) && ignoreSpot {
        return true, {};
      }
      ok, changed := true, {d.coin};
      match d.kind {
        case Malformed =>
          return false, {};
        case New(sz, anchor) =>
          if d.oid in statuses {
            var st := statuses[d.oid].status;
            statuses := statuses - {d.oid};
            ok, changed := RestOrder(st, sz, anchor);
          } else {
            news := news[d.oid := PendingNew(sz, anchor, now, d.protocolUser)];
            changed := {};
          }
        case Update(newSz) =>
          var (books', found) := ModifyIn(books, d.oid, d.coin, newSz);
          books := books';
          if found {
            if newSz == 0 && d.oid !in zeroedSet {
              zeroedSet := zeroedSet + {d.oid};
              zeroedRecently := zeroedRecently + [(blockHeight, d.oid)];
            }
          } else {
            ApplyDiffToPendingNew(d.oid, Some(newSz));
          }
        case Remove =>
          var (books', found) := CancelIn(books, d.oid, d.coin);
          books := books';
          if !found {
            if d.oid in zeroedSet {
              zeroedSet := zeroedSet - {d.oid};
            } else {
              ApplyDiffToPendingNew(d.oid, None);
            }
          }
      }
    }

    method ApplyOrderStatuses(blockHeight: nat, blockTime: nat, events: seq<Status>, now: nat)
      returns (ok: bool, changed: set<Coin>)
      modifies this
      ensures Outcome(View(), changed, ok)
           == ApplyAll(old(View()), [BeginStatuses(blockHeight, blockTime)] + StatusSteps(events, now))
    {
      if blockHeight >= height {
        height, time := blockHeight, blockTime;
      }
      ghost var begun := View();
      var todo := events;
      ok, changed := true, {};
      while todo != []
        invariant var goal, r := ApplyAll(begun, StatusSteps(events, now)), ApplyAll(View(), StatusSteps(todo, now));
                  goal == Outcome(r.state, if r.ok then changed + r.changed else {}, r.ok)
        decreases |todo|
      {
        ghost var s := View();
        assert StatusSteps(todo, now)[0] == OneStatus(todo[0], now) && StatusSteps(todo, now)[1..] == StatusSteps(todo[1..], now);
        var coins;
        ok, coins := ApplyOneStatus(todo[0], now);
        if !ok {
          changed := {};
          FirstStep(old(View()), BeginStatuses(blockHeight, blockTime), StatusSteps(events, now));
          return;
        }
        assert changed + (coins + ApplyAll(View(), StatusSteps(todo[1..], now)).changed)
            == changed + coins + ApplyAll(View(), StatusSteps(todo[1..], now)).changed;
        changed := changed + coins;
        todo := todo[1..];
      }
      assert changed + {} == changed;
      FirstStep(old(View()), BeginStatuses(blockHeight, blockTime), StatusSteps(events, now));
    }

    method ForgetOldZeroings(blockHeight: nat)
      modifies this`zeroedRecently, this`zeroedSet
      ensures View() == Prune(old(View()), blockHeight)
    {
      while zeroedRecently != [] && zeroedRecently[0].0 + ZEROED_WINDOW_BLOCKS < blockHeight
        invariant Prune(View(), blockHeight) == Prune(old(View()), blockHeight)
        decreases |zeroedRecently|
      {
        var (_, oid) := zeroedRecently[0];
        zeroedRecently := zeroedRecently[1..];
        zeroedSet := zeroedSet - {oid};
      }
    }

    method ApplyOrderDiffs(blockHeight: nat, blockTime: nat, events: seq<Diff>, now: nat)
      returns (ok: bool, changed: set<Coin>)
      modifies this
      ensures Outcome(View(), changed, ok)
           == ApplyAll(old(View()), [BeginDiffs(blockHeight, blockTime)] + DiffSteps(events, now, blockHeight))
    {
      ForgetOldZeroings(blockHeight);
      if blockHeight >= height {
        height, time := blockHeight, blockTime;
      }
      ghost var begun := View();
      var todo := events;
      ok, changed := true, {};
      while todo != []
        invariant var goal, r := ApplyAll(begun, DiffSteps(events, now, blockHeight)), ApplyAll(View(), DiffSteps(todo, now, blockHeight));
                  goal == Outcome(r.state, if r.ok then changed + r.changed else {}, r.ok)
        decreases |todo|
      {
        assert DiffSteps(todo, now, blockHeight)[0] == OneDiff(todo[0], now, blockHeight)
            && DiffSteps(todo, now, blockHeight)[1..] == DiffSteps(todo[1..], now, blockHeight);
        var coins;
        ok, coins := ApplyOneDiff(todo[0], now, blockHeight);
        if !ok {
          changed := {};
          FirstStep(old(View()), BeginDiffs(blockHeight, blockTime), DiffSteps(events, now, blockHeight));
          return;
        }
        assert changed + (coins + ApplyAll(View(), DiffSteps(todo[1..], now, blockHeight)).changed)
            == changed + coins + ApplyAll(View(), DiffSteps(todo[1..], now, blockHeight)).changed;
        changed := changed + coins;
        todo := todo[1..];
      }
      assert changed + {} == changed;
      FirstStep(old(View()), BeginDiffs(blockHeight, blockTime), DiffSteps(events, now, blockHeight));
    }

    /** The maintenance pass, in place. */
    method CleanupStalePending(now: nat) returns (lost: bool)
      modifies this
      ensures Cleans(old(View()), now, Tidying(books, statuses, news, lost))
      ensures View() == Tidied(old(View()), Tidying(books, statuses, news, lost))
    {
      lost := LostNew(news, now);
      statuses := YoungStatuses(statuses, now);
      news := YoungNews(news, now);
      lost := lost || |statuses| > MAX_PENDING || |news| > MAX_PENDING;
      statuses := EvictOldest(statuses, (p: PendingStatus) => p.at, MAX_PENDING);
      news := EvictOldest(news, (p: PendingNew) => p.at, MAX_PENDING);
      books := CompactAll(books);
    }
  }

  lemma FirstStep(s: State, first: Step, rest: seq<Step>)
    requires first.BeginStatuses? || first.BeginDiffs?
    ensures ApplyAll(s, [first] + rest) == ApplyAll(Apply(s, first).state, rest)
  {
    assert ([first] + rest)[1..] == rest;
    var r := ApplyAll(Apply(s, first).state, rest);
    assert {} + r.changed == r.changed;
    FailureReportsNothing(Apply(s, first).state, rest);
  }

  lemma {:induction false} FailureReportsNothing(s: State, steps: seq<Step>)
    ensures !ApplyAll(s, steps).ok ==> ApplyAll(s, steps).changed == {}
  {
  }
}
