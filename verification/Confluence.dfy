/**
 Pairing is confluent: whichever of the two streams is ahead, and however they interleave,
 the same orders rest with the same sizes.
 */
module Confluence {
  import opened Types
  import opened Levels
  import opened BookCore
  import opened RestingMap
  import opened MultiBook
  import opened Pairing

  /** What is true of each oid once and for all: its coin, and the side and price it is placed at. */
  datatype Facts = Facts(coinOf: Oid -> Coin, locOf: Oid -> Loc)

  /** The run under study: the facts, the books it starts from, and whether spot diffs are skipped. */
  datatype World = World(facts: Facts, start: Books, ignoreSpot: bool)

  // ----- the reference: plain replay of the diffs, and who has a status -----

  /** Diffs of spot markets can be asked to be left out: those named by a leading `@`, and PURR/USDC. */
  predicate Heard(w: World, d: Diff) {
    !w.ignoreSpot || !("@" <= d.coin.name || d.coin.name == "PURR/USDC")
  }

  lemma HeardIsNotSkipped(w: World, s: State, d: Diff)
    requires s.ignoreSpot == w.ignoreSpot
    ensures Heard(w, d) <==> !Skipped(s, d)
  {
  }

  predicate IsNewFor(w: World, d: Diff, oid: Oid) {
    d.oid == oid && d.kind.New? && Heard(w, d)
  }

  ghost predicate HasNew(w: World, diffs: seq<Diff>, oid: Oid) {
    exists i :: 0 <= i < |diffs| && IsNewFor(w, diffs[i], oid)
  }

  ghost predicate Seen(statuses: seq<Status>, oid: Oid) {
    exists i :: 0 <= i < |statuses| && statuses[i].oid == oid
  }

  function Initial(w: World, oid: Oid): Option<Order> {
    RestsIn(w.start, w.facts.coinOf(oid), oid)
  }

  /** One diff applied to the size an order is live at. */
  function Replay(w: World, live: Option<Sz>, d: Diff, oid: Oid): Option<Sz> {
    if d.oid != oid || !Heard(w, d) then live
    else
      match d.kind
      case Malformed => live
      case New(sz, _) => Some(sz)
      case Update(newSz) => if live.None? || newSz == 0 then None else Some(newSz)
      case Remove => None
  }

  /** The size an order is live at after these diffs, had there been no statuses to wait for. */
  function LiveSz(w: World, diffs: seq<Diff>, oid: Oid): Option<Sz> {
    if diffs == [] then (if Initial(w, oid).Some? then Some(Initial(w, oid).value.sz) else None)
    else Replay(w, LiveSz(w, diffs[..|diffs| - 1], oid), diffs[|diffs| - 1], oid)
  }

  /** The order that should rest under an oid once these statuses and diffs have been delivered. */
  ghost function Expected(w: World, statuses: seq<Status>, diffs: seq<Diff>, oid: Oid): Option<Order> {
    var live, init := LiveSz(w, diffs, oid), Initial(w, oid);
    if live.None? then None
    else if init.Some? then Some(init.value.(sz := live.value))
    else if Seen(statuses, oid) then
      Some(Order(w.facts.coinOf(oid), oid, w.facts.locOf(oid).side, w.facts.locOf(oid).px, live.value))
    else None
  }

  // ----- what the streams must be like -----

  /** Each oid is placed at most once, with a size, and was not resting before; its diffs name its coin. */
  ghost predicate DiffOk(w: World, diffs: seq<Diff>, i: nat) {
    i < |diffs| ==>
      var d := diffs[i];
      && d.coin == w.facts.coinOf(d.oid)
      && (d.kind.New? && Heard(w, d) ==>
            d.kind.sz > 0 && Initial(w, d.oid).None? && !HasNew(w, diffs[..i], d.oid))
  }

  /** An order opens on the book unless it is a trigger, which waits until it fires, or immediate-or-cancel; a trigger enters as it fires. */
  predicate GoesIn(st: Status) {
    match st.kind
    case Open => !st.isTrigger && !st.isIoc
    case Triggered => st.isTrigger
    case Other => false
  }

  lemma GoesInIsInserted(st: Status)
    ensures InsertedIntoBook(st) <==> GoesIn(st)
  {
  }

  /** The first status of an order that is placed is one that goes into the book; all such statuses agree. */
  ghost predicate StatusOk(w: World, statuses: seq<Status>, diffs: seq<Diff>, i: nat) {
    i < |statuses| ==>
      var st := statuses[i];
      && st.coin == w.facts.coinOf(st.oid)
      && (HasNew(w, diffs, st.oid) ==>
            && (GoesIn(st) ==> st.parsed == Some(w.facts.locOf(st.oid)))
            && (!Seen(statuses[..i], st.oid) ==> GoesIn(st)))
  }

  ghost predicate StartOk(w: World) {
    BooksInv(w.start) && forall c, oid :: RestsIn(w.start, c, oid).Some? ==> c == w.facts.coinOf(oid)
  }

  ghost predicate Coherent(w: World, statuses: seq<Status>, diffs: seq<Diff>) {
    && StartOk(w)
    && (forall i: nat :: DiffOk(w, diffs, i))
    && (forall i: nat :: StatusOk(w, statuses, diffs, i))
  }

  // ----- the invariant tying the machine to the reference, oid by oid -----

  /** Statuses `ss` and diffs `ds` delivered so far, out of all the diffs `all`. */
  ghost predicate PairAt(w: World, s: State, ss: seq<Status>, ds: seq<Diff>, all: seq<Diff>, oid: Oid) {
    var live, init := LiveSz(w, ds, oid), Initial(w, oid);
    && (forall c :: RestsIn(s.books, c, oid) == if c == w.facts.coinOf(oid) then Expected(w, ss, ds, oid) else None)
    && (oid in s.news <==> live.Some? && init.None? && !Seen(ss, oid))
    && (oid in s.news ==> s.news[oid].sz == live.value)
    && (oid in s.statuses ==> Seen(ss, oid))
    && (HasNew(w, all, oid) && !HasNew(w, ds, oid) && Seen(ss, oid) ==> oid in s.statuses)
    && (HasNew(w, all, oid) && oid in s.statuses ==>
          var st := s.statuses[oid].status;
          st.oid == oid && st.coin == w.facts.coinOf(oid) && st.parsed == Some(w.facts.locOf(oid)))
    && (oid in s.zeroedSet ==> live.None? && (HasNew(w, ds, oid) || init.Some?))
    && (live.Some? ==> live.value > 0 && (HasNew(w, ds, oid) || init.Some?))
  }

  ghost predicate PairInv(w: World, s: State, ss: seq<Status>, ds: seq<Diff>, all: seq<Diff>) {
    && s.ignoreSpot == w.ignoreSpot
    && BooksInv(s.books)
    && (forall oid :: PairAt(w, s, ss, ds, all, oid))
  }

  // ----- growing prefixes -----

  lemma SeenSnoc(ss: seq<Status>, st: Status, oid: Oid)
    ensures Seen(ss + [st], oid) <==> Seen(ss, oid) || st.oid == oid
  {
    var t := ss + [st];
    assert t[|ss|] == st;
    if Seen(ss, oid) {
      var i :| 0 <= i < |ss| && ss[i].oid == oid;
      assert t[i] == ss[i];
    }
    if Seen(t, oid) && st.oid != oid {
      var i :| 0 <= i < |t| && t[i].oid == oid;
      assert t[i] == ss[i];
    }
  }

  lemma HasNewSnoc(w: World, ds: seq<Diff>, d: Diff, oid: Oid)
    ensures HasNew(w, ds + [d], oid) <==> HasNew(w, ds, oid) || IsNewFor(w, d, oid)
  {
    var t := ds + [d];
    assert t[|ds|] == d;
    if HasNew(w, ds, oid) {
      var i :| 0 <= i < |ds| && IsNewFor(w, ds[i], oid);
      assert t[i] == ds[i];
    }
    if HasNew(w, t, oid) && !IsNewFor(w, d, oid) {
      var i :| 0 <= i < |t| && IsNewFor(w, t[i], oid);
      assert t[i] == ds[i];
    }
  }

  lemma LiveSnoc(w: World, ds: seq<Diff>, d: Diff, oid: Oid)
    ensures LiveSz(w, ds + [d], oid) == Replay(w, LiveSz(w, ds, oid), d, oid)
  {
    assert (ds + [d])[..|ds + [d]| - 1] == ds;
  }

  // ----- what one event does, in terms of the resting map -----

  /** The order `o` has been added (it rests unless something already rests there or it has no size). */
  ghost predicate Rested(bs: Books, o: Order, bs': Books) {
    && BooksInv(bs')
    && (forall c: Coin, x: Oid :: RestsIn(bs', c, x) ==
          if (c, x) == (o.coin, o.oid) && RestsIn(bs, c, x).None? && o.sz > 0 then Some(o) else RestsIn(bs, c, x))
  }

  /** The order under (coin, oid), if there is one, has been resized, or removed by size 0. */
  ghost predicate Resized(bs: Books, coin: Coin, oid: Oid, sz: Sz, bs': Books) {
    && BooksInv(bs')
    && (forall c: Coin, x: Oid :: RestsIn(bs', c, x) ==
          if (c, x) != (coin, oid) || RestsIn(bs, coin, oid).None? then RestsIn(bs, c, x)
          else if sz == 0 then None else Some(RestsIn(bs, coin, oid).value.(sz := sz)))
  }

  lemma AddToIsRested(bs: Books, o: Order, anchor: Option<Oid>)
    requires BooksInv(bs) && NoCross(BookOf(bs, o.coin), o)
    ensures Rested(bs, o, AddTo(bs, o, anchor).0)
  {
    forall c ensures BookInv(BookOf(AddTo(bs, o, anchor).0, c)) {
      AddToRests(bs, o, anchor, c, 0);
    }
    forall c: Coin, x: Oid ensures RestsIn(AddTo(bs, o, anchor).0, c, x) ==
        if (c, x) == (o.coin, o.oid) && RestsIn(bs, c, x).None? && o.sz > 0 then Some(o) else RestsIn(bs, c, x) {
      AddToRests(bs, o, anchor, c, x);
    }
  }

  lemma ModifyInIsResized(bs: Books, oid: Oid, coin: Coin, sz: Sz)
    requires BooksInv(bs)
    ensures Resized(bs, coin, oid, sz, ModifyIn(bs, oid, coin, sz).0)
    ensures ModifyIn(bs, oid, coin, sz).1 <==> RestsIn(bs, coin, oid).Some?
  {
    ModifyInRests(bs, oid, coin, sz, coin, oid);
    forall c ensures BookInv(BookOf(ModifyIn(bs, oid, coin, sz).0, c)) {
      ModifyInRests(bs, oid, coin, sz, c, 0);
    }
    forall c: Coin, x: Oid ensures RestsIn(ModifyIn(bs, oid, coin, sz).0, c, x) ==
        if (c, x) != (coin, oid) || RestsIn(bs, coin, oid).None? then RestsIn(bs, c, x)
        else if sz == 0 then None else Some(RestsIn(bs, coin, oid).value.(sz := sz)) {
      ModifyInRests(bs, oid, coin, sz, c, x);
    }
  }

  lemma CancelInIsResized(bs: Books, oid: Oid, coin: Coin)
    requires BooksInv(bs)
    ensures Resized(bs, coin, oid, 0, CancelIn(bs, oid, coin).0)
    ensures CancelIn(bs, oid, coin).1 <==> RestsIn(bs, coin, oid).Some?
  {
    CancelInRests(bs, oid, coin, coin, oid);
    forall c ensures BookInv(BookOf(CancelIn(bs, oid, coin).0, c)) {
      CancelInRests(bs, oid, coin, c, 0);
    }
    forall c: Coin, x: Oid ensures RestsIn(CancelIn(bs, oid, coin).0, c, x) ==
        if (c, x) != (coin, oid) || RestsIn(bs, coin, oid).None? then RestsIn(bs, c, x) else None {
      CancelInRests(bs, oid, coin, c, x);
    }
  }

  // ----- each event keeps the invariant, oid by oid -----

  /** A status for another oid changes nothing here. */
  lemma StatusElsewhere(w: World, s: State, s': State, ss: seq<Status>, ds: seq<Diff>, all: seq<Diff>, st: Status, oid: Oid)
    requires PairAt(w, s, ss, ds, all, oid) && oid != st.oid
    requires forall c :: RestsIn(s'.books, c, oid) == RestsIn(s.books, c, oid)
    requires oid in s'.news <==> oid in s.news
    requires oid in s.news ==> s'.news[oid] == s.news[oid]
    requires oid in s'.statuses <==> oid in s.statuses
    requires oid in s.statuses ==> s'.statuses[oid] == s.statuses[oid]
    requires s'.zeroedSet == s.zeroedSet
    ensures PairAt(w, s', ss + [st], ds, all, oid)
  {
    SeenSnoc(ss, st, oid);
  }

  /** A status that meets its waiting New rests the order. */
  lemma StatusPairs(w: World, s: State, s': State, ss: seq<Status>, ds: seq<Diff>, all: seq<Diff>, st: Status)
    requires PairAt(w, s, ss, ds, all, st.oid) && st.oid in s.news
    requires st.coin == w.facts.coinOf(st.oid) && st.parsed == Some(w.facts.locOf(st.oid))
    requires Rested(s.books, Order(st.coin, st.oid, st.parsed.value.side, st.parsed.value.px, s.news[st.oid].sz), s'.books)
    requires st.oid !in s'.news && s'.statuses == s.statuses && s'.zeroedSet == s.zeroedSet
    ensures PairAt(w, s', ss + [st], ds, all, st.oid)
  {
    SeenSnoc(ss, st, st.oid);
  }

  /** A status with no New waiting is remembered if it is one that goes into the book. */
  lemma StatusWaits(w: World, s: State, s': State, ss: seq<Status>, ds: seq<Diff>, all: seq<Diff>, st: Status, now: nat)
    requires PairAt(w, s, ss, ds, all, st.oid) && st.oid !in s.news
    requires st.coin == w.facts.coinOf(st.oid)
    requires HasNew(w, all, st.oid) && InsertedIntoBook(st) ==> st.parsed == Some(w.facts.locOf(st.oid))
    requires HasNew(w, all, st.oid) && !Seen(ss, st.oid) ==> InsertedIntoBook(st)
    requires s' == if InsertedIntoBook(st) then s.(statuses := s.statuses[st.oid := PendingStatus(st, now)]) else s
    ensures PairAt(w, s', ss + [st], ds, all, st.oid)
  {
    SeenSnoc(ss, st, st.oid);
  }

  lemma DiffElsewhere(w: World, s: State, s': State, ss: seq<Status>, ds: seq<Diff>, all: seq<Diff>, d: Diff, oid: Oid)
    requires PairAt(w, s, ss, ds, all, oid)
    requires oid != d.oid || !Heard(w, d)
    requires forall c :: RestsIn(s'.books, c, oid) == RestsIn(s.books, c, oid)
    requires oid in s'.news <==> oid in s.news
    requires oid in s.news ==> s'.news[oid] == s.news[oid]
    requires oid in s'.statuses <==> oid in s.statuses
    requires oid in s.statuses ==> s'.statuses[oid] == s.statuses[oid]
    requires oid in s'.zeroedSet ==> oid in s.zeroedSet
    ensures PairAt(w, s', ss, ds + [d], all, oid)
  {
    LiveSnoc(w, ds, d, oid);
    HasNewSnoc(w, ds, d, oid);
  }

  /** A New that finds its status rests the order; otherwise it waits. */
  lemma NewArrives(w: World, s: State, s': State, ss: seq<Status>, ds: seq<Diff>, all: seq<Diff>, d: Diff)
    requires PairAt(w, s, ss, ds, all, d.oid) && IsNewFor(w, d, d.oid) && d.kind.sz > 0
    requires d.coin == w.facts.coinOf(d.oid)
    requires Initial(w, d.oid).None? && !HasNew(w, ds, d.oid) && HasNew(w, all, d.oid)
    requires s'.zeroedSet == s.zeroedSet
    requires d.oid in s.statuses ==>
               && s.statuses[d.oid].status.parsed.Some?
               && Rested(s.books, Order(d.coin, d.oid, s.statuses[d.oid].status.parsed.value.side,
                                        s.statuses[d.oid].status.parsed.value.px, d.kind.sz), s'.books)
               && s'.news == s.news && s'.statuses == s.statuses - {d.oid}
    requires d.oid !in s.statuses ==>
               && s'.books == s.books && s'.statuses == s.statuses
               && d.oid in s'.news && s'.news[d.oid].sz == d.kind.sz
    ensures PairAt(w, s', ss, ds + [d], all, d.oid)
  {
    LiveSnoc(w, ds, d, d.oid);
    HasNewSnoc(w, ds, d, d.oid);
  }

  /** An Update or a Remove reaches the order in the book, or its waiting New, or nothing. */
  lemma ResizeArrives(w: World, s: State, s': State, ss: seq<Status>, ds: seq<Diff>, all: seq<Diff>, d: Diff, sz: Sz)
    requires PairAt(w, s, ss, ds, all, d.oid) && Heard(w, d)
    requires (d.kind.Update? && sz == d.kind.newSz) || (d.kind.Remove? && sz == 0)
    requires d.coin == w.facts.coinOf(d.oid)
    requires Resized(s.books, d.coin, d.oid, sz, s'.books)
    requires s'.statuses == s.statuses
    requires var found := RestsIn(s.books, d.coin, d.oid).Some?;
             && (found ==> s'.news == s.news)
             && (!found && d.oid !in s.news ==> d.oid !in s'.news)
             && (!found && d.oid in s.news && sz > 0 ==> d.oid in s'.news && s'.news[d.oid].sz == sz)
             && (!found && d.oid in s.news && sz == 0 ==> d.oid !in s'.news)
             && (d.oid in s'.zeroedSet ==> d.oid in s.zeroedSet || (found && sz == 0))
    ensures PairAt(w, s', ss, ds + [d], all, d.oid)
  {
    LiveSnoc(w, ds, d, d.oid);
    HasNewSnoc(w, ds, d, d.oid);
  }

  // ----- whole runs -----

  /** The order a step adds to the books, if it completes a pair. */
  function Added(s: State, step: Step): Option<Order> {
    match step
    case OneStatus(st, _) =>
      if st.oid in s.news && st.parsed.Some? then
        Some(Order(st.coin, st.oid, st.parsed.value.side, st.parsed.value.px, s.news[st.oid].sz))
      else None
    case OneDiff(d, _, _) =>
      if !Skipped(s, d) && d.kind.New? && d.oid in s.statuses && s.statuses[d.oid].status.parsed.Some? then
        var st := s.statuses[d.oid].status;
        Some(Order(st.coin, st.oid, st.parsed.value.side, st.parsed.value.px, d.kind.sz))
      else None
    case _ => None
  }

  /** The step applies without error, and an order it adds trades with nobody. */
  ghost predicate CleanStep(s: State, step: Step) {
    Apply(s, step).ok && (Added(s, step).Some? ==> NoCross(BookOf(s.books, Added(s, step).value.coin), Added(s, step).value))
  }

  ghost predicate Clean(s: State, steps: seq<Step>)
    decreases |steps|
  {
    steps != [] ==> CleanStep(s, steps[0]) && Clean(Apply(s, steps[0]).state, steps[1..])
  }

  function StatusesOf(steps: seq<Step>): seq<Status> {
    if steps == [] then [] else (if steps[0].OneStatus? then [steps[0].status] else []) + StatusesOf(steps[1..])
  }

  function DiffsOf(steps: seq<Step>): seq<Diff> {
    if steps == [] then [] else (if steps[0].OneDiff? then [steps[0].diff] else []) + DiffsOf(steps[1..])
  }

  lemma StatusKeepsPairInv(w: World, s: State, ss: seq<Status>, ds: seq<Diff>, all: seq<Diff>, st: Status, now: nat)
    requires PairInv(w, s, ss, ds, all) && CleanStep(s, OneStatus(st, now))
    requires st.coin == w.facts.coinOf(st.oid)
    requires HasNew(w, all, st.oid) && InsertedIntoBook(st) ==> st.parsed == Some(w.facts.locOf(st.oid))
    requires HasNew(w, all, st.oid) && !Seen(ss, st.oid) ==> InsertedIntoBook(st)
    requires HasNew(w, ds, st.oid) ==> HasNew(w, all, st.oid)
    ensures PairInv(w, ApplyStatus(s, st, now).state, ss + [st], ds, all)
  {
    var s' := ApplyStatus(s, st, now).state;
    assert PairAt(w, s, ss, ds, all, st.oid);
    if st.oid in s.news {
      assert st.parsed == Some(w.facts.locOf(st.oid));
      var o := Order(st.coin, st.oid, st.parsed.value.side, st.parsed.value.px, s.news[st.oid].sz);
      assert Added(s, OneStatus(st, now)) == Some(o);
      AddToIsRested(s.books, o, s.news[st.oid].insertBefore);
      StatusPairs(w, s, s', ss, ds, all, st);
    } else {
      StatusWaits(w, s, s', ss, ds, all, st, now);
    }
    forall oid ensures PairAt(w, s', ss + [st], ds, all, oid) {
      assert PairAt(w, s, ss, ds, all, oid);
      if oid != st.oid {
        StatusElsewhere(w, s, s', ss, ds, all, st, oid);
      }
    }
  }

  lemma NewKeepsPairInv(w: World, s: State, ss: seq<Status>, ds: seq<Diff>, all: seq<Diff>, d: Diff, now: nat, height: nat)
    requires PairInv(w, s, ss, ds, all) && CleanStep(s, OneDiff(d, now, height)) && IsNewFor(w, d, d.oid)
    requires d.coin == w.facts.coinOf(d.oid) && d.kind.sz > 0
    requires Initial(w, d.oid).None? && !HasNew(w, ds, d.oid) && HasNew(w, all, d.oid)
    ensures PairInv(w, ApplyDiff(s, d, now, height).state, ss, ds + [d], all)
  {
    var s' := ApplyDiff(s, d, now, height).state;
    assert PairAt(w, s, ss, ds, all, d.oid);
    if d.oid in s.statuses {
      var st := s.statuses[d.oid].status;
      var o := Order(d.coin, d.oid, st.parsed.value.side, st.parsed.value.px, d.kind.sz);
      assert Added(s, OneDiff(d, now, height)) == Some(o);
      AddToIsRested(s.books, o, d.kind.insertBefore);
    }
    NewArrives(w, s, s', ss, ds, all, d);
    forall oid ensures PairAt(w, s', ss, ds + [d], all, oid) {
      assert PairAt(w, s, ss, ds, all, oid);
      if oid != d.oid {
        DiffElsewhere(w, s, s', ss, ds, all, d, oid);
      }
    }
  }

  /** What an Update (or a Remove, as size 0) does to the fields of the state. */
  ghost predicate ResizeStep(s: State, d: Diff, sz: Sz, s': State) {
    var found := RestsIn(s.books, d.coin, d.oid).Some?;
    && Resized(s.books, d.coin, d.oid, sz, s'.books)
    && s'.statuses == s.statuses && s'.ignoreSpot == s.ignoreSpot
    && s'.news == (if found || d.oid !in s.news then s.news
                   else if sz > 0 then s.news[d.oid := s.news[d.oid].(sz := sz)]
                   else s.news - {d.oid})
    && (forall x :: x in s'.zeroedSet ==> x in s.zeroedSet || (x == d.oid && found && sz == 0))
  }

  lemma UpdateIsResizeStep(s: State, d: Diff, now: nat, height: nat)
    requires BooksInv(s.books) && !Skipped(s, d) && d.kind.Update?
    ensures ResizeStep(s, d, d.kind.newSz, ApplyDiff(s, d, now, height).state)
  {
    ModifyInIsResized(s.books, d.oid, d.coin, d.kind.newSz);
  }

  lemma RemoveIsResizeStep(s: State, d: Diff, now: nat, height: nat)
    requires BooksInv(s.books) && !Skipped(s, d) && d.kind.Remove?
    requires d.oid in s.zeroedSet ==> d.oid !in s.news
    ensures ResizeStep(s, d, 0, ApplyDiff(s, d, now, height).state)
  {
    CancelInIsResized(s.books, d.oid, d.coin);
  }

  lemma ResizeKeepsPairInv(w: World, s: State, s': State, ss: seq<Status>, ds: seq<Diff>, all: seq<Diff>, d: Diff, sz: Sz)
    requires PairInv(w, s, ss, ds, all) && Heard(w, d) && d.coin == w.facts.coinOf(d.oid)
    requires (d.kind.Update? && sz == d.kind.newSz) || (d.kind.Remove? && sz == 0)
    requires ResizeStep(s, d, sz, s')
    ensures PairInv(w, s', ss, ds + [d], all)
  {
    assert PairAt(w, s, ss, ds, all, d.oid);
    ResizeArrives(w, s, s', ss, ds, all, d, sz);
    forall oid ensures PairAt(w, s', ss, ds + [d], all, oid) {
      assert PairAt(w, s, ss, ds, all, oid);
      if oid != d.oid {
        DiffElsewhere(w, s, s', ss, ds, all, d, oid);
      }
    }
  }

  lemma SkippedKeepsPairInv(w: World, s: State, ss: seq<Status>, ds: seq<Diff>, all: seq<Diff>, d: Diff)
    requires PairInv(w, s, ss, ds, all) && !Heard(w, d)
    ensures PairInv(w, s, ss, ds + [d], all)
  {
    forall oid ensures PairAt(w, s, ss, ds + [d], all, oid) {
      assert PairAt(w, s, ss, ds, all, oid);
      DiffElsewhere(w, s, s, ss, ds, all, d, oid);
    }
  }

  lemma DiffKeepsPairInv(w: World, s: State, ss: seq<Status>, ds: seq<Diff>, all: seq<Diff>, d: Diff, now: nat, height: nat)
    requires PairInv(w, s, ss, ds, all) && CleanStep(s, OneDiff(d, now, height))
    requires d.coin == w.facts.coinOf(d.oid)
    requires IsNewFor(w, d, d.oid) ==>
               d.kind.sz > 0 && Initial(w, d.oid).None? && !HasNew(w, ds, d.oid) && HasNew(w, all, d.oid)
    ensures PairInv(w, ApplyDiff(s, d, now, height).state, ss, ds + [d], all)
  {
    assert PairAt(w, s, ss, ds, all, d.oid);
    if !Heard(w, d) {
      SkippedKeepsPairInv(w, s, ss, ds, all, d);
    } else if d.kind.New? {
      NewKeepsPairInv(w, s, ss, ds, all, d, now, height);
    } else if d.kind.Update? {
      UpdateIsResizeStep(s, d, now, height);
      ResizeKeepsPairInv(w, s, ApplyDiff(s, d, now, height).state, ss, ds, all, d, d.kind.newSz);
    } else {
      RemoveIsResizeStep(s, d, now, height);
      ResizeKeepsPairInv(w, s, ApplyDiff(s, d, now, height).state, ss, ds, all, d, 0);
    }
  }

  /** Starting a batch touches heights, times and old zeroings only. */
  lemma BeginKeepsPairInv(w: World, s: State, ss: seq<Status>, ds: seq<Diff>, all: seq<Diff>, step: Step)
    requires PairInv(w, s, ss, ds, all) && (step.BeginStatuses? || step.BeginDiffs?)
    ensures PairInv(w, Apply(s, step).state, ss, ds, all)
  {
    PruneOnlyZeroed(s, step.height);
    forall oid ensures PairAt(w, Apply(s, step).state, ss, ds, all, oid) {
      assert PairAt(w, s, ss, ds, all, oid);
    }
  }

  lemma HasNewPrefix(w: World, ds: seq<Diff>, all: seq<Diff>, oid: Oid)
    requires ds <= all && HasNew(w, ds, oid)
    ensures HasNew(w, all, oid)
  {
    var i :| 0 <= i < |ds| && IsNewFor(w, ds[i], oid);
    assert all[i] == ds[i];
  }

  /** The invariant holds after every clean run, from any point on. */
  lemma {:induction false} RunKeepsPairInv(w: World, s: State, ss: seq<Status>, ds: seq<Diff>,
                                           steps: seq<Step>, statuses: seq<Status>, diffs: seq<Diff>)
    requires statuses == ss + StatusesOf(steps) && diffs == ds + DiffsOf(steps)
    requires Coherent(w, statuses, diffs) && PairInv(w, s, ss, ds, diffs) && Clean(s, steps)
    ensures PairInv(w, ApplyAll(s, steps).state, statuses, diffs, diffs) && ApplyAll(s, steps).ok
    decreases |steps|
  {
    if steps == [] {
      assert statuses == ss && diffs == ds;
    } else {
      var s' := Apply(s, steps[0]).state;
      match steps[0]
      case OneStatus(st, now) =>
        assert statuses[|ss|] == st && statuses[..|ss|] == ss;
        assert StatusOk(w, statuses, diffs, |ss|);
        GoesInIsInserted(st);
        if HasNew(w, ds, st.oid) {
          HasNewPrefix(w, ds, diffs, st.oid);
        }
        StatusKeepsPairInv(w, s, ss, ds, diffs, st, now);
        assert statuses == ss + [st] + StatusesOf(steps[1..]);
        RunKeepsPairInv(w, s', ss + [st], ds, steps[1..], statuses, diffs);
      case OneDiff(d, now, height) =>
        assert diffs[|ds|] == d && diffs[..|ds|] == ds;
        assert DiffOk(w, diffs, |ds|);
        DiffKeepsPairInv(w, s, ss, ds, diffs, d, now, height);
        assert diffs == ds + [d] + DiffsOf(steps[1..]);
        RunKeepsPairInv(w, s', ss, ds + [d], steps[1..], statuses, diffs);
      case _ =>
        BeginKeepsPairInv(w, s, ss, ds, diffs, steps[0]);
        assert [] + StatusesOf(steps[1..]) == StatusesOf(steps[1..]) && [] + DiffsOf(steps[1..]) == DiffsOf(steps[1..]);
        RunKeepsPairInv(w, s', ss, ds, steps[1..], statuses, diffs);
    }
  }

  /** A state fresh from a snapshot: books, and nothing waiting. */
  ghost predicate Fresh(w: World, s: State) {
    s.books == w.start && s.ignoreSpot == w.ignoreSpot && s.statuses == map[] && s.news == map[] && s.zeroedSet == {}
  }

  lemma FreshIsPaired(w: World, s: State, all: seq<Diff>)
    requires StartOk(w) && Fresh(w, s)
    ensures PairInv(w, s, [], [], all)
  {
    forall oid ensures PairAt(w, s, [], [], all, oid) {
      assert BookInv(BookOf(w.start, w.facts.coinOf(oid)));
      RestsIffIndexed(BookOf(w.start, w.facts.coinOf(oid)), oid);
    }
  }

  /**
   After every clean run, whatever the interleaving: an order rests exactly as the delivered statuses
   and the replayed diffs say, and a New waits exactly when its order is live and no status has come.
   */
  lemma RestingIsExpected(w: World, s: State, steps: seq<Step>, coin: Coin, oid: Oid)
    requires Fresh(w, s) && Coherent(w, StatusesOf(steps), DiffsOf(steps)) && Clean(s, steps)
    ensures var s' := ApplyAll(s, steps).state;
            var live := LiveSz(w, DiffsOf(steps), oid);
            && RestsIn(s'.books, coin, oid)
               == (if coin == w.facts.coinOf(oid) then Expected(w, StatusesOf(steps), DiffsOf(steps), oid) else None)
            && (oid in s'.news <==> live.Some? && Initial(w, oid).None? && !Seen(StatusesOf(steps), oid))
            && (oid in s'.news ==> s'.news[oid].sz == live.value)
  {
    var ss, ds := StatusesOf(steps), DiffsOf(steps);
    assert [] + ss == ss && [] + ds == ds;
    FreshIsPaired(w, s, ds);
    RunKeepsPairInv(w, s, [], [], steps, ss, ds);
    assert PairAt(w, ApplyAll(s, steps).state, ss, ds, ds, oid);
  }

  /** Confluence: two interleavings of the same two streams leave the same orders resting. */
  lemma PairingIsConfluent(w: World, s: State, t: State, a: seq<Step>, b: seq<Step>, coin: Coin, oid: Oid)
    requires Fresh(w, s) && Fresh(w, t)
    requires StatusesOf(a) == StatusesOf(b) && DiffsOf(a) == DiffsOf(b)
    requires Coherent(w, StatusesOf(a), DiffsOf(a)) && Clean(s, a) && Clean(t, b)
    ensures RestsIn(ApplyAll(s, a).state.books, coin, oid) == RestsIn(ApplyAll(t, b).state.books, coin, oid)
  {
    RestingIsExpected(w, s, a, coin, oid);
    RestingIsExpected(w, t, b, coin, oid);
  }

  // ----- why the streams must be coherent -----

  lemma TwoSteps(s: State, a: Step, b: Step)
    requires Apply(s, a).ok
    ensures ApplyAll(s, [a, b]).state == Apply(Apply(s, a).state, b).state
    ensures CleanStep(s, a) && CleanStep(Apply(s, a).state, b) ==> Clean(s, [a, b])
  {
    assert [a, b][1..] == [b] && [b][1..] == [];
    var t := Apply(s, a).state;
    assert ApplyAll(Apply(t, b).state, []).state == Apply(t, b).state;
    assert ApplyAll(t, [b]).state == Apply(t, b).state;
    assert Clean(Apply(t, b).state, []);
    assert CleanStep(Apply(s, a).state, b) ==> Clean(Apply(s, a).state, [b]);
  }

  /**
   A waiting New pairs with any status, but only a status that goes into the book waits for its New.
   So a stream whose first status is, say, a cancellation ends differently in the two orders of arrival.
   */
  lemma AnyStatusPairsWithAWaitingNew(s: State, st: Status, d: Diff)
    requires s == State(map[], map[], map[], [], {}, 0, 0, 0, false)
    requires st == Status(7, Coin("BTC"), Other, false, false, Some(Loc(Bid, 100)))
    requires d == Diff(7, Coin("BTC"), false, New(5, None))
    ensures var statusFirst := [OneStatus(st, 0), OneDiff(d, 0, 0)];
            var diffFirst := [OneDiff(d, 0, 0), OneStatus(st, 0)];
            && Clean(s, statusFirst) && Clean(s, diffFirst)
            && RestsIn(ApplyAll(s, statusFirst).state.books, Coin("BTC"), 7) == None
            && RestsIn(ApplyAll(s, diffFirst).state.books, Coin("BTC"), 7) == Some(Order(Coin("BTC"), 7, Bid, 100, 5))
  {
    var o, waiting := Order(Coin("BTC"), 7, Bid, 100, 5), Apply(s, OneDiff(d, 0, 0)).state;
    EmptyBookHasNothing(7);
    TwoSteps(s, OneStatus(st, 0), OneDiff(d, 0, 0));
    TwoSteps(s, OneDiff(d, 0, 0), OneStatus(st, 0));
    assert waiting.news == map[7 := PendingNew(5, None, 0, false)] && waiting.books == map[];
    AddToRests(waiting.books, o, None, Coin("BTC"), 7);
  }

  /** An order that is neither in its book nor waiting, and would cross nothing. */
  ghost predicate Placeable(s: State, o: Order) {
    && BooksInv(s.books) && o.sz > 0
    && RestsIn(s.books, o.coin, o.oid).None?
    && NoCross(BookOf(s.books, o.coin), o)
    && o.oid !in s.news && o.oid !in s.statuses
  }

  /** This status and this New are the two halves of an order that can be placed. */
  ghost predicate Halves(s: State, st: Status, d: Diff) {
    && st.parsed.Some? && d.kind.New? && d.oid == st.oid && d.coin == st.coin && !Skipped(s, d)
    && Placeable(s, OrderOf(st, d))
  }

  /** The order that a status and a New of the same oid amount to. */
  function OrderOf(st: Status, d: Diff): Order
    requires st.parsed.Some? && d.kind.New?
  {
    Order(st.coin, st.oid, st.parsed.value.side, st.parsed.value.px, d.kind.sz)
  }

  /** The order rests once both halves are there, and neither half waits any more. */
  ghost predicate RestsInBothOrders(s: State, st: Status, d: Diff, now: nat, h: nat)
    requires st.parsed.Some? && d.kind.New?
  {
    var a := ApplyAll(s, [OneStatus(st, now), OneDiff(d, now, h)]).state;
    var b := ApplyAll(s, [OneDiff(d, now, h), OneStatus(st, now)]).state;
    && RestsIn(a.books, st.coin, st.oid) == Some(OrderOf(st, d)) && a.statuses == s.statuses && a.news == s.news
    && RestsIn(b.books, st.coin, st.oid) == Some(OrderOf(st, d)) && b.statuses == s.statuses && b.news == s.news
  }

  lemma InsertedRests(s: State, st: Status, d: Diff, now: nat, h: nat)
    requires Halves(s, st, d) && InsertedIntoBook(st)
    ensures RestsInBothOrders(s, st, d, now, h)
  {
    TwoSteps(s, OneStatus(st, now), OneDiff(d, now, h));
    TwoSteps(s, OneDiff(d, now, h), OneStatus(st, now));
    AddToRests(s.books, OrderOf(st, d), d.kind.insertBefore, st.coin, st.oid);
    assert s.statuses[st.oid := PendingStatus(st, now)] - {st.oid} == s.statuses;
    assert s.news[st.oid := PendingNew(d.kind.sz, d.kind.insertBefore, now, d.protocolUser)] - {st.oid} == s.news;
  }

  /** An order that opens on the book rests once its New is there too, whichever came first. */
  lemma OpenOrderRests(s: State, st: Status, d: Diff, now: nat, h: nat)
    requires Halves(s, st, d) && st.kind == Open && !st.isTrigger && !st.isIoc
    ensures RestsInBothOrders(s, st, d, now, h)
  {
    InsertedRests(s, st, d, now, h);
  }

  /** So does a trigger order once it has fired, immediate-or-cancel or not. */
  lemma FiredTriggerRests(s: State, st: Status, d: Diff, now: nat, h: nat)
    requires Halves(s, st, d) && st.kind == Triggered && st.isTrigger
    ensures RestsInBothOrders(s, st, d, now, h)
  {
    InsertedRests(s, st, d, now, h);
  }

  /** With no New waiting, every other status leaves no trace: a New that follows it waits as if it had not come. */
  lemma OtherStatusIsDropped(s: State, st: Status, d: Diff, now: nat, h: nat)
    requires st.oid !in s.news
    requires st.kind == Open ==> st.isTrigger || st.isIoc
    requires st.kind == Triggered ==> !st.isTrigger
    ensures Apply(s, OneStatus(st, now)) == Outcome(s, {}, true)
    ensures ApplyAll(s, [OneStatus(st, now), OneDiff(d, now, h)]).state == Apply(s, OneDiff(d, now, h)).state
  {
    TwoSteps(s, OneStatus(st, now), OneDiff(d, now, h));
  }

  /**
   A status and a New of one order commute exactly when the status is that of an open order which is
   neither a trigger nor immediate-or-cancel, or that of a trigger which has fired.
   */
  lemma PairCommutesIff(s: State, st: Status, d: Diff, now: nat, h: nat)
    requires Halves(s, st, d)
    ensures var a := ApplyAll(s, [OneStatus(st, now), OneDiff(d, now, h)]).state;
            var b := ApplyAll(s, [OneDiff(d, now, h), OneStatus(st, now)]).state;
            RestsIn(a.books, st.coin, st.oid) == RestsIn(b.books, st.coin, st.oid)
            <==> (st.kind == Open && !st.isTrigger && !st.isIoc) || (st.kind == Triggered && st.isTrigger)
  {
    TwoSteps(s, OneStatus(st, now), OneDiff(d, now, h));
    TwoSteps(s, OneDiff(d, now, h), OneStatus(st, now));
    AddToRests(s.books, OrderOf(st, d), d.kind.insertBefore, st.coin, st.oid);
  }

  /** An instance of a batch that is not reported: its first diff rests an order, its second does not parse. */
  lemma FailedBatchHidesItsChange(s: State, d: Diff, bad: Diff, now: nat, h: nat)
    requires d.kind.New? && bad.kind.Malformed? && !Skipped(s, d) && !Skipped(s, bad)
    requires d.oid in s.statuses && s.statuses[d.oid].status.parsed.Some?
    requires var st := s.statuses[d.oid].status;
             var o := Order(st.coin, st.oid, st.parsed.value.side, st.parsed.value.px, d.kind.sz);
             Placeable(s.(statuses := map[]), o)
    ensures var st := s.statuses[d.oid].status;
            var r := ApplyAll(s, [OneDiff(d, now, h), OneDiff(bad, now, h)]);
            && !r.ok && r.changed == {}
            && RestsIn(s.books, st.coin, st.oid).None? && RestsIn(r.state.books, st.coin, st.oid).Some?
  {
    var st := s.statuses[d.oid].status;
    var o := Order(st.coin, st.oid, st.parsed.value.side, st.parsed.value.px, d.kind.sz);
    TwoSteps(s, OneDiff(d, now, h), OneDiff(bad, now, h));
    AddToRests(s.books, o, d.kind.insertBefore, st.coin, st.oid);
    var steps := [OneDiff(d, now, h), OneDiff(bad, now, h)];
    assert steps[1..] == [OneDiff(bad, now, h)];
    assert !ApplyAll(Apply(s, steps[0]).state, steps[1..]).ok;
  }
}
