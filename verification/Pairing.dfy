/**
 The status/diff pairing state machine. The node writes order statuses and book diffs to
 two files that are read independently; an order rests once its status and its New diff
 have met, whichever came first, and Updates and Removes may overtake the status.
 */
module Pairing {
  import opened Types
  import opened Levels
  import opened BookCore
  import opened MultiBook

  datatype StatusKind = Open | Triggered | Other

  /** Side and limit price are what the order parses to; None when the record does not parse. */
  datatype Status = Status(oid: Oid, coin: Coin, kind: StatusKind, isTrigger: bool, isIoc: bool, parsed: Option<Loc>)

  predicate InsertedIntoBook(st: Status) {
    (st.kind == Open && !st.isTrigger && !st.isIoc) || (st.isTrigger && st.kind == Triggered)
  }

  datatype DiffKind = New(sz: Sz, insertBefore: Option<Oid>) | Update(newSz: Sz) | Remove | Malformed

  datatype Diff = Diff(oid: Oid, coin: Coin, protocolUser: bool, kind: DiffKind)

  datatype PendingStatus = PendingStatus(status: Status, at: nat)
  datatype PendingNew = PendingNew(sz: Sz, insertBefore: Option<Oid>, at: nat, protocolUser: bool)

  datatype State = State(
    books: Books,
    statuses: map<Oid, PendingStatus>,
    news: map<Oid, PendingNew>,
    zeroedRecently: seq<(nat, Oid)>,
    zeroedSet: set<Oid>,
    fallbacks: nat,
    height: nat,
    time: nat,
    ignoreSpot: bool)

  /** Outcome of applying events: the state reached, the coins reported as changed, and whether all applied. */
  datatype Outcome = Outcome(state: State, changed: set<Coin>, ok: bool)

  const ZEROED_WINDOW_BLOCKS: nat := 64

  /** Both halves are here: the order rests with the diff's size at the diff's queue position. */
  function RestPair(s: State, st: Status, sz: Sz, anchor: Option<Oid>): Outcome {
    if st.parsed.None? then Outcome(s, {}, false)
    else
      var o := Order(st.coin, st.oid, st.parsed.value.side, st.parsed.value.px, sz);
      var (books, fellBack) := AddTo(s.books, o, anchor);
      Outcome(s.(books := books, fallbacks := s.fallbacks + if fellBack then 1 else 0), {st.coin}, true)
  }

  function ApplyStatus(s: State, st: Status, now: nat): Outcome {
    if st.oid in s.news then
      var waiting := s.news[st.oid];
      RestPair(s.(news := s.news - {st.oid}), st, waiting.sz, waiting.insertBefore)
    else if InsertedIntoBook(st) then
      Outcome(s.(statuses := s.statuses[st.oid := PendingStatus(st, now)]), {}, true)
    else Outcome(s, {}, true)
  }

  /** An Update (Some) or a Remove (None) that overtook the status: the waiting New is resized or dropped. */
  function ApplyToPending(s: State, oid: Oid, newSz: Option<Sz>): State {
    if oid !in s.news then s
    else if newSz.Some? && newSz.value > 0 then s.(news := s.news[oid := s.news[oid].(sz := newSz.value)])
    else s.(news := s.news - {oid})
  }

  predicate Skipped(s: State, d: Diff) {
    IsSpot(d.coin) && s.ignoreSpot
  }

  function ApplyDiff(s: State, d: Diff, now: nat, height: nat): Outcome {
    if Skipped(s, d) then Outcome(s, {}, true)
    else
      match d.kind
      case Malformed => Outcome(s, {}, false)
      case New(sz, anchor) =>
        if d.oid in s.statuses then
          RestPair(s.(statuses := s.statuses - {d.oid}), s.statuses[d.oid].status, sz, anchor)
        else Outcome(s.(news := s.news[d.oid := PendingNew(sz, anchor, now, d.protocolUser)]), {}, true)
      case Update(newSz) =>
        var (books, found) := ModifyIn(s.books, d.oid, d.coin, newSz);
        var s' := s.(books := books);
        if !found then Outcome(ApplyToPending(s', d.oid, Some(newSz)), {d.coin}, true)
        else if newSz == 0 && d.oid !in s.zeroedSet then
          Outcome(s'.(zeroedSet := s.zeroedSet + {d.oid}, zeroedRecently := s.zeroedRecently + [(height, d.oid)]), {d.coin}, true)
        else Outcome(s', {d.coin}, true)
      case Remove =>
        var (books, found) := CancelIn(s.books, d.oid, d.coin);
        var s' := s.(books := books);
        if found then Outcome(s', {d.coin}, true)
        else if d.oid in s.zeroedSet then Outcome(s'.(zeroedSet := s.zeroedSet - {d.oid}), {d.coin}, true)
        else Outcome(ApplyToPending(s', d.oid, None), {d.coin}, true)
  }

  function NoteHeight(s: State, height: nat, time: nat): State {
    if height >= s.height then s.(height := height, time := time) else s
  }

  /** Drop zeroings from before the window. */
  function Prune(s: State, height: nat): State
    decreases |s.zeroedRecently|
  {
    if s.zeroedRecently == [] || s.zeroedRecently[0].0 + ZEROED_WINDOW_BLOCKS >= height then s
    else Prune(s.(zeroedRecently := s.zeroedRecently[1..], zeroedSet := s.zeroedSet - {s.zeroedRecently[0].1}), height)
  }

  /** The steps a batch consists of, in the order they happen. */
  datatype Step =
    | BeginStatuses(height: nat, time: nat)
    | BeginDiffs(height: nat, time: nat)
    | OneStatus(status: Status, now: nat)
    | OneDiff(diff: Diff, now: nat, height: nat)

  function Apply(s: State, step: Step): Outcome {
    match step
    case BeginStatuses(height, time) => Outcome(NoteHeight(s, height, time), {}, true)
    case BeginDiffs(height, time) => Outcome(NoteHeight(Prune(s, height), height, time), {}, true)
    case OneStatus(status, now) => ApplyStatus(s, status, now)
    case OneDiff(diff, now, height) => ApplyDiff(s, diff, now, height)
  }

  /** Apply steps until one fails; a failed batch keeps what it did so far but reports no coin. */
  function ApplyAll(s: State, steps: seq<Step>): Outcome
    decreases |steps|
  {
    if steps == [] then Outcome(s, {}, true)
    else
      var o := Apply(s, steps[0]);
      if !o.ok then o.(changed := {})
      else
        var r := ApplyAll(o.state, steps[1..]);
        Outcome(r.state, if r.ok then o.changed + r.changed else {}, r.ok)
  }

  // ----- every apply reports what it touched -----

  ghost predicate SameBook(bs: Books, bs': Books, coin: Coin) {
    (coin in bs' <==> coin in bs) && (coin in bs ==> bs'[coin] == bs[coin])
  }

  lemma StatusReportsChange(s: State, st: Status, now: nat, coin: Coin)
    requires coin !in ApplyStatus(s, st, now).changed
    ensures SameBook(s.books, ApplyStatus(s, st, now).state.books, coin)
  {
  }

  lemma UpdateReportsChange(s: State, d: Diff, now: nat, height: nat, coin: Coin)
    requires d.kind.Update? && coin !in ApplyDiff(s, d, now, height).changed
    ensures SameBook(s.books, ApplyDiff(s, d, now, height).state.books, coin)
  {
    var books := ModifyIn(s.books, d.oid, d.coin, d.kind.newSz).0;
    assert coin != d.coin ==> SameBook(s.books, books, coin);
    assert ApplyDiff(s, d, now, height).state.books == if Skipped(s, d) then s.books else books;
  }

  lemma RemoveReportsChange(s: State, d: Diff, now: nat, height: nat, coin: Coin)
    requires d.kind.Remove? && coin !in ApplyDiff(s, d, now, height).changed
    ensures SameBook(s.books, ApplyDiff(s, d, now, height).state.books, coin)
  {
    var books := CancelIn(s.books, d.oid, d.coin).0;
    assert coin != d.coin ==> SameBook(s.books, books, coin);
    assert ApplyDiff(s, d, now, height).state.books == if Skipped(s, d) then s.books else books;
  }

  lemma DiffReportsChange(s: State, d: Diff, now: nat, height: nat, coin: Coin)
    requires coin !in ApplyDiff(s, d, now, height).changed
    ensures SameBook(s.books, ApplyDiff(s, d, now, height).state.books, coin)
  {
    if d.kind.Update? {
      UpdateReportsChange(s, d, now, height, coin);
    } else if d.kind.Remove? {
      RemoveReportsChange(s, d, now, height, coin);
    }
  }

  lemma ApplyReportsChange(s: State, step: Step, coin: Coin)
    requires coin !in Apply(s, step).changed
    ensures SameBook(s.books, Apply(s, step).state.books, coin)
  {
    match step
    case BeginStatuses(height, time) =>
    case BeginDiffs(height, time) => PruneOnlyZeroed(s, height);
    case OneStatus(st, now) => StatusReportsChange(s, st, now, coin);
    case OneDiff(d, now, height) => DiffReportsChange(s, d, now, height, coin);
  }

  lemma {:induction false} PruneOnlyZeroed(s: State, height: nat)
    ensures var p := Prune(s, height);
            p == s.(zeroedRecently := p.zeroedRecently, zeroedSet := p.zeroedSet) && p.zeroedSet <= s.zeroedSet
    decreases |s.zeroedRecently|
  {
    if s.zeroedRecently != [] && s.zeroedRecently[0].0 + ZEROED_WINDOW_BLOCKS < height {
      PruneOnlyZeroed(s.(zeroedRecently := s.zeroedRecently[1..], zeroedSet := s.zeroedSet - {s.zeroedRecently[0].1}), height);
    }
  }

  /** A coin that a batch does not report has the book it had before. */
  lemma {:induction false} BatchReportsChange(s: State, steps: seq<Step>, coin: Coin)
    requires ApplyAll(s, steps).ok && coin !in ApplyAll(s, steps).changed
    ensures SameBook(s.books, ApplyAll(s, steps).state.books, coin)
    decreases |steps|
  {
    if steps != [] {
      ApplyReportsChange(s, steps[0], coin);
      BatchReportsChange(Apply(s, steps[0]).state, steps[1..], coin);
    }
  }

  // ----- which batches apply, and which report everything -----

  /** The two ways a step fails: a heard diff that does not parse, and a pair whose status does not. */
  predicate Rejects(s: State, step: Step) {
    match step
    case OneStatus(st, _) => st.oid in s.news && st.parsed.None?
    case OneDiff(d, _, _) =>
      !Skipped(s, d) && (d.kind.Malformed? || (d.kind.New? && d.oid in s.statuses && s.statuses[d.oid].status.parsed.None?))
    case _ => false
  }

  lemma AppliesIffNotRejected(s: State, step: Step)
    ensures Apply(s, step).ok <==> !Rejects(s, step)
  {
  }

  /** No step of the batch is rejected where it comes. */
  predicate Accepted(s: State, steps: seq<Step>)
    decreases |steps|
  {
    steps == [] || (!Rejects(s, steps[0]) && Accepted(Apply(s, steps[0]).state, steps[1..]))
  }

  /** The state in front of the first rejected step, or after the last one. */
  function BeforeReject(s: State, steps: seq<Step>): State
    decreases |steps|
  {
    if steps == [] || Rejects(s, steps[0]) then s else BeforeReject(Apply(s, steps[0]).state, steps[1..])
  }

  lemma {:induction false} BatchAppliesIffAccepted(s: State, steps: seq<Step>)
    ensures ApplyAll(s, steps).ok <==> Accepted(s, steps)
    decreases |steps|
  {
    if steps != [] {
      AppliesIffNotRejected(s, steps[0]);
      if Apply(s, steps[0]).ok {
        BatchAppliesIffAccepted(Apply(s, steps[0]).state, steps[1..]);
      }
    }
  }

  lemma RejectedKeepsBooks(s: State, step: Step)
    requires Rejects(s, step)
    ensures Apply(s, step).state.books == s.books
  {
  }

  /** A failing batch reports nothing and leaves the books as they were where it failed. */
  lemma {:induction false} FailedBatchIs(s: State, steps: seq<Step>)
    requires !Accepted(s, steps)
    ensures var r := ApplyAll(s, steps); !r.ok && r.changed == {} && r.state.books == BeforeReject(s, steps).books
    decreases |steps|
  {
    AppliesIffNotRejected(s, steps[0]);
    if Rejects(s, steps[0]) {
      RejectedKeepsBooks(s, steps[0]);
    } else {
      FailedBatchIs(Apply(s, steps[0]).state, steps[1..]);
    }
  }

  /** Every coin whose book a batch changed is among those it reports. */
  ghost predicate ReportsAll(s: State, steps: seq<Step>) {
    forall coin :: coin !in ApplyAll(s, steps).changed ==> SameBook(s.books, ApplyAll(s, steps).state.books, coin)
  }

  /**
   A batch reports every book it changed if and only if no step is rejected, or none of the steps
   in front of the first rejected one changed a book.
   */
  lemma ReportsAllIff(s: State, steps: seq<Step>)
    ensures ReportsAll(s, steps) <==> Accepted(s, steps) || BeforeReject(s, steps).books == s.books
  {
    BatchAppliesIffAccepted(s, steps);
    if Accepted(s, steps) {
      forall coin | coin !in ApplyAll(s, steps).changed
        ensures SameBook(s.books, ApplyAll(s, steps).state.books, coin)
      {
        BatchReportsChange(s, steps, coin);
      }
    } else {
      FailedBatchIs(s, steps);
      SameBooksEverywhere(s.books, ApplyAll(s, steps).state.books);
    }
  }

  lemma SameBooksEverywhere(bs: Books, bs': Books)
    ensures (forall coin :: SameBook(bs, bs', coin)) <==> bs == bs'
  {
    if forall coin :: SameBook(bs, bs', coin) {
      assert forall coin :: SameBook(bs, bs', coin) ==> (coin in bs <==> coin in bs');
      assert bs.Keys == bs'.Keys;
      forall coin | coin in bs
        ensures bs[coin] == bs'[coin]
      {
        assert SameBook(bs, bs', coin);
      }
    }
  }

  /** Seen from the input alone: every status that waits, and every heard event of the batch, parses. */
  ghost predicate WaitingParse(s: State) {
    forall oid :: oid in s.statuses ==> s.statuses[oid].status.parsed.Some?
  }

  predicate StepParses(step: Step, ignoreSpot: bool) {
    match step
    case OneStatus(st, _) => st.parsed.Some?
    case OneDiff(d, _, _) => (IsSpot(d.coin) && ignoreSpot) || !d.kind.Malformed?
    case _ => true
  }

  predicate AllParse(steps: seq<Step>, ignoreSpot: bool) {
    forall i :: 0 <= i < |steps| ==> StepParses(steps[i], ignoreSpot)
  }

  lemma ParsedStepIsAccepted(s: State, step: Step)
    requires WaitingParse(s) && StepParses(step, s.ignoreSpot)
    ensures !Rejects(s, step) && WaitingParse(Apply(s, step).state) && Apply(s, step).state.ignoreSpot == s.ignoreSpot
  {
    match step
    case BeginStatuses(height, time) =>
    case BeginDiffs(height, time) => PruneOnlyZeroed(s, height);
    case OneStatus(st, now) =>
    case OneDiff(d, now, height) =>
      DiffQueuesNoStatus(s, d, now, height);
      DiffKeepsFilter(s, d, now, height);
  }

  lemma DiffQueuesNoStatus(s: State, d: Diff, now: nat, height: nat)
    ensures var s' := ApplyDiff(s, d, now, height).state;
            forall oid :: oid in s'.statuses ==> oid in s.statuses && s'.statuses[oid] == s.statuses[oid]
  {
    if !d.kind.New? {
      ResizeQueuesNothing(s, d, now, height);
    }
  }

  lemma DiffKeepsFilter(s: State, d: Diff, now: nat, height: nat)
    ensures ApplyDiff(s, d, now, height).state.ignoreSpot == s.ignoreSpot
  {
  }

  /** A batch whose events parse, on a state whose waiting statuses parse, applies and reports every change. */
  lemma {:induction false} ParsedBatchReportsAll(s: State, steps: seq<Step>)
    requires WaitingParse(s) && AllParse(steps, s.ignoreSpot)
    ensures Accepted(s, steps) && ReportsAll(s, steps) && WaitingParse(ApplyAll(s, steps).state)
    decreases |steps|
  {
    ParsedBatchIsAccepted(s, steps);
    ReportsAllIff(s, steps);
  }

  lemma {:induction false} ParsedBatchIsAccepted(s: State, steps: seq<Step>)
    requires WaitingParse(s) && AllParse(steps, s.ignoreSpot)
    ensures Accepted(s, steps) && WaitingParse(ApplyAll(s, steps).state)
    decreases |steps|
  {
    if steps != [] {
      assert StepParses(steps[0], s.ignoreSpot);
      ParsedStepIsAccepted(s, steps[0]);
      AppliesIffNotRejected(s, steps[0]);
      ParsedBatchIsAccepted(Apply(s, steps[0]).state, steps[1..]);
    }
  }

  // ----- no oid waits in both caches -----

  ghost predicate CachesDisjoint(s: State) {
    forall oid :: !(oid in s.statuses && oid in s.news)
  }

  lemma DiffKeepsCachesDisjoint(s: State, d: Diff, now: nat, height: nat, oid: Oid)
    requires CachesDisjoint(s)
    ensures var s' := ApplyDiff(s, d, now, height).state; !(oid in s'.statuses && oid in s'.news)
  {
    if !d.kind.New? {
      ResizeQueuesNothing(s, d, now, height);
    }
  }

  lemma ResizeQueuesNothing(s: State, d: Diff, now: nat, height: nat)
    requires !d.kind.New?
    ensures var s' := ApplyDiff(s, d, now, height).state; s'.statuses == s.statuses && s'.news.Keys <= s.news.Keys
  {
  }

  lemma ApplyKeepsCachesDisjoint(s: State, step: Step)
    requires CachesDisjoint(s)
    ensures CachesDisjoint(Apply(s, step).state)
  {
    match step
    case BeginStatuses(height, time) =>
    case BeginDiffs(height, time) => PruneOnlyZeroed(s, height);
    case OneStatus(st, now) =>
    case OneDiff(d, now, height) =>
      forall oid ensures !(oid in Apply(s, step).state.statuses && oid in Apply(s, step).state.news) {
        DiffKeepsCachesDisjoint(s, d, now, height, oid);
      }
  }

  /** Over any steps at all, failing ones included. */
  lemma {:induction false} RunKeepsCachesDisjoint(s: State, steps: seq<Step>)
    requires CachesDisjoint(s)
    ensures CachesDisjoint(ApplyAll(s, steps).state)
    decreases |steps|
  {
    if steps != [] {
      ApplyKeepsCachesDisjoint(s, steps[0]);
      if Apply(s, steps[0]).ok {
        RunKeepsCachesDisjoint(Apply(s, steps[0]).state, steps[1..]);
      }
    }
  }
}
