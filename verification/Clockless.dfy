/**
 The wall clock only stamps the waiting halves: events applied at other times reach the
 same state, the stamps aside.
 */
module Clockless {
  import opened Types
  import opened MultiBook
  import opened Pairing

  ghost predicate SameStatusAt(s: State, t: State, oid: Oid) {
    && (oid in s.statuses <==> oid in t.statuses)
    && (oid in s.statuses ==> s.statuses[oid].status == t.statuses[oid].status)
  }

  ghost predicate SameNewAt(s: State, t: State, oid: Oid) {
    && (oid in s.news <==> oid in t.news)
    && (oid in s.news ==> s.news[oid].(at := 0) == t.news[oid].(at := 0))
  }

  /** Equal in everything except when the waiting halves arrived. */
  ghost predicate Similar(s: State, t: State) {
    && s.(statuses := map[], news := map[]) == t.(statuses := map[], news := map[])
    && (forall oid: Oid :: SameStatusAt(s, t, oid))
    && (forall oid: Oid :: SameNewAt(s, t, oid))
  }

  /** The same event, possibly applied at another time. */
  predicate SameEvent(a: Step, b: Step) {
    match a
    case BeginStatuses(_, _) => a == b
    case BeginDiffs(_, _) => a == b
    case OneStatus(st, _) => b.OneStatus? && b.status == st
    case OneDiff(d, _, h) => b.OneDiff? && b.diff == d && b.height == h
  }

  lemma SimilarIsTransitive(s: State, t: State, u: State)
    requires Similar(s, t) && Similar(t, u)
    ensures Similar(s, u)
  {
    forall oid: Oid
      ensures SameStatusAt(s, u, oid) && SameNewAt(s, u, oid)
    {
      assert SameStatusAt(s, t, oid) && SameStatusAt(t, u, oid);
      assert SameNewAt(s, t, oid) && SameNewAt(t, u, oid);
    }
  }

  lemma RestPairSimilar(s: State, t: State, st: Status, sz: Sz, anchor: Option<Oid>)
    requires Similar(s, t)
    ensures var a, b := RestPair(s, st, sz, anchor), RestPair(t, st, sz, anchor);
            Similar(a.state, b.state) && a.ok == b.ok
  {
    var a, b := RestPair(s, st, sz, anchor), RestPair(t, st, sz, anchor);
    forall oid: Oid
      ensures SameStatusAt(a.state, b.state, oid) && SameNewAt(a.state, b.state, oid)
    {
      assert SameStatusAt(s, t, oid) && SameNewAt(s, t, oid);
    }
  }

  lemma StatusSimilar(s: State, t: State, st: Status, now: nat, now': nat)
    requires Similar(s, t)
    ensures var a, b := ApplyStatus(s, st, now), ApplyStatus(t, st, now');
            Similar(a.state, b.state) && a.ok == b.ok
  {
    assert SameNewAt(s, t, st.oid);
    if st.oid in s.news {
      var s1, t1 := s.(news := s.news - {st.oid}), t.(news := t.news - {st.oid});
      WithoutNewSimilar(s, t, st.oid);
      RestPairSimilar(s1, t1, st, s.news[st.oid].sz, s.news[st.oid].insertBefore);
    } else if InsertedIntoBook(st) {
      WithStatusSimilar(s, t, st, now, now');
    }
  }

  lemma WithoutNewSimilar(s: State, t: State, oid: Oid)
    requires Similar(s, t)
    ensures Similar(s.(news := s.news - {oid}), t.(news := t.news - {oid}))
  {
    var s', t' := s.(news := s.news - {oid}), t.(news := t.news - {oid});
    forall o: Oid
      ensures SameStatusAt(s', t', o) && SameNewAt(s', t', o)
    {
      assert SameStatusAt(s, t, o) && SameNewAt(s, t, o);
    }
  }

  lemma WithNewSimilar(s: State, t: State, oid: Oid, a: PendingNew, b: PendingNew)
    requires Similar(s, t) && a.(at := 0) == b.(at := 0)
    ensures Similar(s.(news := s.news[oid := a]), t.(news := t.news[oid := b]))
  {
    var s', t' := s.(news := s.news[oid := a]), t.(news := t.news[oid := b]);
    forall o: Oid
      ensures SameStatusAt(s', t', o) && SameNewAt(s', t', o)
    {
      assert SameStatusAt(s, t, o) && SameNewAt(s, t, o);
    }
  }

  lemma WithoutStatusSimilar(s: State, t: State, oid: Oid)
    requires Similar(s, t)
    ensures Similar(s.(statuses := s.statuses - {oid}), t.(statuses := t.statuses - {oid}))
  {
    var s', t' := s.(statuses := s.statuses - {oid}), t.(statuses := t.statuses - {oid});
    forall o: Oid
      ensures SameStatusAt(s', t', o) && SameNewAt(s', t', o)
    {
      assert SameStatusAt(s, t, o) && SameNewAt(s, t, o);
    }
  }

  lemma WithStatusSimilar(s: State, t: State, st: Status, now: nat, now': nat)
    requires Similar(s, t)
    ensures Similar(s.(statuses := s.statuses[st.oid := PendingStatus(st, now)]),
                    t.(statuses := t.statuses[st.oid := PendingStatus(st, now')]))
  {
    var s' := s.(statuses := s.statuses[st.oid := PendingStatus(st, now)]);
    var t' := t.(statuses := t.statuses[st.oid := PendingStatus(st, now')]);
    forall o: Oid
      ensures SameStatusAt(s', t', o) && SameNewAt(s', t', o)
    {
      assert SameStatusAt(s, t, o) && SameNewAt(s, t, o);
    }
  }

  /** Changing the parts without stamps in the same way. */
  lemma SameChangeSimilar(s: State, t: State, s': State, t': State)
    requires Similar(s, t)
    requires s'.statuses == s.statuses && s'.news == s.news && t'.statuses == t.statuses && t'.news == t.news
    requires s'.(statuses := map[], news := map[]) == t'.(statuses := map[], news := map[])
    ensures Similar(s', t')
  {
    forall o: Oid
      ensures SameStatusAt(s', t', o) && SameNewAt(s', t', o)
    {
      assert SameStatusAt(s, t, o) && SameNewAt(s, t, o);
    }
  }

  lemma PendingSimilar(s: State, t: State, oid: Oid, newSz: Option<Sz>)
    requires Similar(s, t)
    ensures Similar(ApplyToPending(s, oid, newSz), ApplyToPending(t, oid, newSz))
  {
    assert SameNewAt(s, t, oid);
    if oid in s.news {
      if newSz.Some? && newSz.value > 0 {
        WithNewSimilar(s, t, oid, s.news[oid].(sz := newSz.value), t.news[oid].(sz := newSz.value));
      } else {
        WithoutNewSimilar(s, t, oid);
      }
    }
  }

  lemma NewSimilar(s: State, t: State, d: Diff, now: nat, now': nat, h: nat)
    requires Similar(s, t) && d.kind.New?
    ensures var a, b := ApplyDiff(s, d, now, h), ApplyDiff(t, d, now', h);
            Similar(a.state, b.state) && a.ok == b.ok
  {
    assert SameStatusAt(s, t, d.oid);
    if !Skipped(s, d) {
      if d.oid in s.statuses {
        WithoutStatusSimilar(s, t, d.oid);
        RestPairSimilar(s.(statuses := s.statuses - {d.oid}), t.(statuses := t.statuses - {d.oid}),
                        s.statuses[d.oid].status, d.kind.sz, d.kind.insertBefore);
      } else {
        WithNewSimilar(s, t, d.oid, PendingNew(d.kind.sz, d.kind.insertBefore, now, d.protocolUser),
                       PendingNew(d.kind.sz, d.kind.insertBefore, now', d.protocolUser));
      }
    }
  }

  lemma UpdateSimilar(s: State, t: State, d: Diff, now: nat, now': nat, h: nat)
    requires Similar(s, t) && d.kind.Update?
    ensures var a, b := ApplyDiff(s, d, now, h), ApplyDiff(t, d, now', h);
            Similar(a.state, b.state) && a.ok == b.ok
  {
    if !Skipped(s, d) {
      var (books, found) := ModifyIn(s.books, d.oid, d.coin, d.kind.newSz);
      if !found {
        SameChangeSimilar(s, t, s.(books := books), t.(books := books));
        PendingSimilar(s.(books := books), t.(books := books), d.oid, Some(d.kind.newSz));
      } else {
        ResizeKeepsWaiting(s, d, now, h);
        ResizeKeepsWaiting(t, d, now', h);
        SameChangeSimilar(s, t, ApplyDiff(s, d, now, h).state, ApplyDiff(t, d, now', h).state);
      }
    }
  }

  lemma ResizeKeepsWaiting(s: State, d: Diff, now: nat, h: nat)
    requires d.kind.Update? && ModifyIn(s.books, d.oid, d.coin, d.kind.newSz).1
    ensures var s' := ApplyDiff(s, d, now, h).state; s'.statuses == s.statuses && s'.news == s.news
  {
  }

  lemma RemoveSimilar(s: State, t: State, d: Diff, now: nat, now': nat, h: nat)
    requires Similar(s, t) && d.kind.Remove?
    ensures var a, b := ApplyDiff(s, d, now, h), ApplyDiff(t, d, now', h);
            Similar(a.state, b.state) && a.ok == b.ok
  {
    if !Skipped(s, d) {
      var (books, found) := CancelIn(s.books, d.oid, d.coin);
      if !found && d.oid !in s.zeroedSet {
        SameChangeSimilar(s, t, s.(books := books), t.(books := books));
        PendingSimilar(s.(books := books), t.(books := books), d.oid, None);
      } else {
        SameChangeSimilar(s, t, ApplyDiff(s, d, now, h).state, ApplyDiff(t, d, now', h).state);
      }
    }
  }

  lemma {:induction false} PruneSimilar(s: State, t: State, h: nat)
    requires Similar(s, t)
    ensures Similar(Prune(s, h), Prune(t, h))
    decreases |s.zeroedRecently|
  {
    if s.zeroedRecently != [] && s.zeroedRecently[0].0 + ZEROED_WINDOW_BLOCKS < h {
      var s' := s.(zeroedRecently := s.zeroedRecently[1..], zeroedSet := s.zeroedSet - {s.zeroedRecently[0].1});
      var t' := t.(zeroedRecently := t.zeroedRecently[1..], zeroedSet := t.zeroedSet - {t.zeroedRecently[0].1});
      SameChangeSimilar(s, t, s', t');
      PruneSimilar(s', t', h);
    }
  }

  lemma ApplySimilar(s: State, t: State, a: Step, b: Step)
    requires Similar(s, t) && SameEvent(a, b)
    ensures Similar(Apply(s, a).state, Apply(t, b).state) && Apply(s, a).ok == Apply(t, b).ok
  {
    match a
    case BeginStatuses(h, time) => SameChangeSimilar(s, t, NoteHeight(s, h, time), NoteHeight(t, h, time));
    case BeginDiffs(h, time) =>
      PruneSimilar(s, t, h);
      var p, q := Prune(s, h), Prune(t, h);
      SameChangeSimilar(p, q, NoteHeight(p, h, time), NoteHeight(q, h, time));
    case OneStatus(st, now) => StatusSimilar(s, t, st, now, b.now);
    case OneDiff(d, now, h) =>
      match d.kind
      case New(_, _) => NewSimilar(s, t, d, now, b.now, h);
      case Update(_) => UpdateSimilar(s, t, d, now, b.now, h);
      case Remove => RemoveSimilar(s, t, d, now, b.now, h);
      case Malformed =>
  }

  ghost predicate SameEvents(a: seq<Step>, b: seq<Step>) {
    |a| == |b| && forall i :: 0 <= i < |a| ==> SameEvent(a[i], b[i])
  }

  /** The same events at other times, from states that differ in stamps only: the same outcome, stamps aside. */
  lemma {:induction false} ClockDoesNotMatter(s: State, t: State, a: seq<Step>, b: seq<Step>)
    requires Similar(s, t) && SameEvents(a, b)
    ensures Similar(ApplyAll(s, a).state, ApplyAll(t, b).state) && ApplyAll(s, a).ok == ApplyAll(t, b).ok
    decreases |a|
  {
    if a != [] {
      assert SameEvent(a[0], b[0]);
      ApplySimilar(s, t, a[0], b[0]);
      if Apply(s, a[0]).ok {
        ClockDoesNotMatter(Apply(s, a[0]).state, Apply(t, b[0]).state, a[1..], b[1..]);
      }
    }
  }
}
