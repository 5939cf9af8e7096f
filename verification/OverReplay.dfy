/**
 A snapshot may be newer than the height the replay is cut at: the events in between are
 then applied a second time. Replayed in block order, statuses before diffs, they change
 nothing in the end.
 */
module OverReplay {
  import opened Types
  import opened Levels
  import opened MultiBook
  import opened Pairing
  import opened Confluence

  // ----- the reference: what the node itself does to one order -----

  datatype Op = Put(order: Order) | Resize(coin: Coin, oid: Oid, sz: Sz)

  predicate Concerns(op: Op, coin: Coin, oid: Oid) {
    match op
    case Put(o) => (o.coin, o.oid) == (coin, oid)
    case Resize(c, x, _) => (c, x) == (coin, oid)
  }

  function Effect(x: Option<Order>, op: Op, coin: Coin, oid: Oid): Option<Order> {
    if !Concerns(op, coin, oid) then x
    else
      match op
      case Put(o) => if x.None? && o.sz > 0 then Some(o) else x
      case Resize(_, _, sz) => if x.None? || sz == 0 then None else Some(x.value.(sz := sz))
  }

  function Effects(x: Option<Order>, ops: seq<Op>, coin: Coin, oid: Oid): Option<Order>
    decreases |ops|
  {
    if ops == [] then x else Effects(Effect(x, ops[0], coin, oid), ops[1..], coin, oid)
  }

  /** A history the node can have written: an order is placed while absent, and resized to a size while present. */
  predicate Legal(x: Option<Order>, ops: seq<Op>, coin: Coin, oid: Oid)
    decreases |ops|
  {
    ops == [] ||
    (&& (Concerns(ops[0], coin, oid) && ops[0].Put? ==> x.None? && ops[0].order.sz > 0)
     && (Concerns(ops[0], coin, oid) && ops[0].Resize? && ops[0].sz > 0 ==> x.Some?)
     && Legal(Effect(x, ops[0], coin, oid), ops[1..], coin, oid))
  }

  predicate Kills(op: Op, coin: Coin, oid: Oid) {
    Concerns(op, coin, oid) && op.Resize? && op.sz == 0
  }

  predicate HasKill(ops: seq<Op>, coin: Coin, oid: Oid) {
    ops != [] && (Kills(ops[0], coin, oid) || HasKill(ops[1..], coin, oid))
  }

  /** Once the order has been removed, what was there before no longer matters. */
  lemma {:induction false} KillForgets(x: Option<Order>, y: Option<Order>, ops: seq<Op>, coin: Coin, oid: Oid)
    requires HasKill(ops, coin, oid)
    ensures Effects(x, ops, coin, oid) == Effects(y, ops, coin, oid)
    decreases |ops|
  {
    if !Kills(ops[0], coin, oid) {
      KillForgets(Effect(x, ops[0], coin, oid), Effect(y, ops[0], coin, oid), ops[1..], coin, oid);
    }
  }

  function LastSz(sz: Sz, ops: seq<Op>, coin: Coin, oid: Oid): Sz
    decreases |ops|
  {
    if ops == [] then sz
    else LastSz(if Concerns(ops[0], coin, oid) && ops[0].Resize? then ops[0].sz else sz, ops[1..], coin, oid)
  }

  /** Without removals, an order that is there only ever takes on the last size. */
  lemma {:induction false} PresentTakesLastSize(o: Order, ops: seq<Op>, coin: Coin, oid: Oid)
    requires !HasKill(ops, coin, oid)
    ensures Effects(Some(o), ops, coin, oid) == Some(o.(sz := LastSz(o.sz, ops, coin, oid)))
    decreases |ops|
  {
    if ops != [] {
      var o' := Effect(Some(o), ops[0], coin, oid).value;
      PresentTakesLastSize(o', ops[1..], coin, oid);
    }
  }

  lemma {:induction false} LastSzIsFixed(a: Sz, b: Sz, ops: seq<Op>, coin: Coin, oid: Oid)
    ensures LastSz(a, ops, coin, oid) == LastSz(b, ops, coin, oid)
            || (LastSz(a, ops, coin, oid) == a && LastSz(b, ops, coin, oid) == b)
    decreases |ops|
  {
    if ops != [] && !(Concerns(ops[0], coin, oid) && ops[0].Resize?) {
      LastSzIsFixed(a, b, ops[1..], coin, oid);
    }
  }

  /** Applying a legal history to its own outcome changes nothing. */
  lemma {:induction false} ReplayIsIdempotent(x: Option<Order>, ops: seq<Op>, coin: Coin, oid: Oid)
    requires Legal(x, ops, coin, oid)
    ensures Effects(Effects(x, ops, coin, oid), ops, coin, oid) == Effects(x, ops, coin, oid)
    decreases |ops|
  {
    if HasKill(ops, coin, oid) {
      KillForgets(x, Effects(x, ops, coin, oid), ops, coin, oid);
    } else if x.Some? {
      var last := LastSz(x.value.sz, ops, coin, oid);
      PresentTakesLastSize(x.value, ops, coin, oid);
      PresentTakesLastSize(x.value.(sz := last), ops, coin, oid);
      LastSzIsFixed(x.value.sz, last, ops, coin, oid);
    } else if ops != [] {
      var x', later := Effect(x, ops[0], coin, oid), ops[1..];
      ReplayIsIdempotent(x', later, coin, oid);
      var y := Effects(x', later, coin, oid);
      if x'.Some? {
        PresentTakesLastSize(x'.value, later, coin, oid);
        assert Effect(y, ops[0], coin, oid) == y;
      }
    }
  }

  // ----- the pairing machine, fed in block order, performs exactly these operations -----

  /** Where no status is late, a New is always there to take the latest status of its oid. */
  ghost predicate Prompt(pending: map<Oid, Status>, steps: seq<Step>, ignoreSpot: bool)
    decreases |steps|
  {
    steps == [] ||
    (&& (steps[0].OneDiff? && steps[0].diff.kind.New? && !(IsSpot(steps[0].diff.coin) && ignoreSpot) ==> steps[0].diff.oid in pending)
     && Prompt(Pending(pending, steps[0], ignoreSpot), steps[1..], ignoreSpot))
  }

  function Pending(pending: map<Oid, Status>, step: Step, ignoreSpot: bool): map<Oid, Status> {
    match step
    case OneStatus(st, _) => if GoesIn(st) then pending[st.oid := st] else pending
    case OneDiff(d, _, _) => if d.kind.New? && !(IsSpot(d.coin) && ignoreSpot) then pending - {d.oid} else pending
    case _ => pending
  }

  /** What a step does to the book, given the statuses that came before it. */
  function OpOf(pending: map<Oid, Status>, step: Step, ignoreSpot: bool): seq<Op> {
    match step
    case OneDiff(d, _, _) =>
      if IsSpot(d.coin) && ignoreSpot then []
      else (
        match d.kind
        case New(sz, _) =>
          if d.oid in pending && pending[d.oid].parsed.Some? then
            var st := pending[d.oid];
            [Put(Order(st.coin, st.oid, st.parsed.value.side, st.parsed.value.px, sz))]
          else []
        case Update(newSz) => [Resize(d.coin, d.oid, newSz)]
        case Remove => [Resize(d.coin, d.oid, 0)]
        case Malformed => [])
    case _ => []
  }

  function Ops(pending: map<Oid, Status>, steps: seq<Step>, ignoreSpot: bool): seq<Op>
    decreases |steps|
  {
    if steps == [] then []
    else OpOf(pending, steps[0], ignoreSpot) + Ops(Pending(pending, steps[0], ignoreSpot), steps[1..], ignoreSpot)
  }

  /** No New is waiting, and the statuses the reference knows of are the ones the machine remembers. */
  ghost predicate InStep(s: State, pending: map<Oid, Status>) {
    && s.news == map[]
    && BooksInv(s.books)
    && (forall oid :: oid in pending ==> oid in s.statuses && s.statuses[oid].status == pending[oid] && pending[oid].oid == oid)
  }

  lemma NewPerformsOp(s: State, pending: map<Oid, Status>, d: Diff, now: nat, height: nat, coin: Coin, oid: Oid)
    requires d.kind.New? && !Skipped(s, d)
    requires InStep(s, pending) && CleanStep(s, OneDiff(d, now, height)) && Prompt(pending, [OneDiff(d, now, height)], s.ignoreSpot)
    ensures var step, s' := OneDiff(d, now, height), ApplyDiff(s, d, now, height).state;
            && InStep(s', Pending(pending, step, s.ignoreSpot)) && s'.ignoreSpot == s.ignoreSpot
            && RestsIn(s'.books, coin, oid) == Effects(RestsIn(s.books, coin, oid), OpOf(pending, step, s.ignoreSpot), coin, oid)
  {
    var step := OneDiff(d, now, height);
    var st := s.statuses[d.oid].status;
    var o := Order(st.coin, st.oid, st.parsed.value.side, st.parsed.value.px, d.kind.sz);
    assert Added(s, step) == Some(o);
    AddToIsRested(s.books, o, d.kind.insertBefore);
    assert Rested(s.books, o, Apply(s, step).state.books);
  }

  lemma DiffPerformsOp(s: State, pending: map<Oid, Status>, d: Diff, now: nat, height: nat, coin: Coin, oid: Oid)
    requires InStep(s, pending) && CleanStep(s, OneDiff(d, now, height)) && Prompt(pending, [OneDiff(d, now, height)], s.ignoreSpot)
    ensures var step, s' := OneDiff(d, now, height), ApplyDiff(s, d, now, height).state;
            && InStep(s', Pending(pending, step, s.ignoreSpot)) && s'.ignoreSpot == s.ignoreSpot
            && RestsIn(s'.books, coin, oid) == Effects(RestsIn(s.books, coin, oid), OpOf(pending, step, s.ignoreSpot), coin, oid)
  {
    var step := OneDiff(d, now, height);
    if !Skipped(s, d) {
      if d.kind.New? {
        NewPerformsOp(s, pending, d, now, height, coin, oid);
      } else if d.kind.Update? {
        UpdateIsResizeStep(s, d, now, height);
        assert Resized(s.books, d.coin, d.oid, d.kind.newSz, Apply(s, step).state.books);
      } else {
        RemoveIsResizeStep(s, d, now, height);
        assert Resized(s.books, d.coin, d.oid, 0, Apply(s, step).state.books);
      }
    }
  }

  lemma StepPerformsOp(s: State, pending: map<Oid, Status>, step: Step, coin: Coin, oid: Oid)
    requires InStep(s, pending) && CleanStep(s, step) && Prompt(pending, [step], s.ignoreSpot)
    ensures var s' := Apply(s, step).state;
            && InStep(s', Pending(pending, step, s.ignoreSpot)) && s'.ignoreSpot == s.ignoreSpot
            && RestsIn(s'.books, coin, oid) == Effects(RestsIn(s.books, coin, oid), OpOf(pending, step, s.ignoreSpot), coin, oid)
  {
    match step
    case OneDiff(d, now, height) => DiffPerformsOp(s, pending, d, now, height, coin, oid);
    case OneStatus(st, now) => GoesInIsInserted(st);
    case BeginStatuses(_, _) =>
    case BeginDiffs(height, _) => PruneOnlyZeroed(s, height);
  }

  lemma {:induction false} EffectsConcat(x: Option<Order>, a: seq<Op>, b: seq<Op>, coin: Coin, oid: Oid)
    ensures Effects(x, a + b, coin, oid) == Effects(Effects(x, a, coin, oid), b, coin, oid)
    decreases |a|
  {
    if a == [] {
      assert a + b == b;
    } else {
      assert (a + b)[1..] == a[1..] + b;
      EffectsConcat(Effect(x, a[0], coin, oid), a[1..], b, coin, oid);
    }
  }

  lemma {:induction false} RunPerformsOps(s: State, pending: map<Oid, Status>, steps: seq<Step>, coin: Coin, oid: Oid)
    requires InStep(s, pending) && Clean(s, steps) && Prompt(pending, steps, s.ignoreSpot)
    ensures var s' := ApplyAll(s, steps).state;
            && InStep(s', map[]) && s'.ignoreSpot == s.ignoreSpot
            && RestsIn(s'.books, coin, oid) == Effects(RestsIn(s.books, coin, oid), Ops(pending, steps, s.ignoreSpot), coin, oid)
    decreases |steps|
  {
    if steps != [] {
      var s' := Apply(s, steps[0]).state;
      assert Prompt(pending, [steps[0]], s.ignoreSpot);
      StepPerformsOp(s, pending, steps[0], coin, oid);
      var pending' := Pending(pending, steps[0], s.ignoreSpot);
      RunPerformsOps(s', pending', steps[1..], coin, oid);
      EffectsConcat(RestsIn(s.books, coin, oid), OpOf(pending, steps[0], s.ignoreSpot), Ops(pending', steps[1..], s.ignoreSpot), coin, oid);
    }
  }

  lemma {:induction false} RunConcat(s: State, a: seq<Step>, b: seq<Step>)
    requires Clean(s, a + b)
    ensures Clean(s, a) && Clean(ApplyAll(s, a).state, b)
    ensures ApplyAll(s, a + b).state == ApplyAll(ApplyAll(s, a).state, b).state
    decreases |a|
  {
    if a == [] {
      assert a + b == b;
    } else {
      assert (a + b)[1..] == a[1..] + b;
      RunConcat(Apply(s, a[0]).state, a[1..], b);
    }
  }

  /**
   Over-replay: the dump `s` already reflects the events `again` on top of the books `earlier`.
   Applying them once more before the later events gives, for every order, what the later events
   alone would have given.
   */
  lemma OverReplayIsHarmless(earlier: Books, s: State, again: seq<Step>, later: seq<Step>, coin: Coin, oid: Oid)
    requires InStep(s, map[]) && Clean(s, again + later) && Clean(s, later)
    requires Prompt(map[], again, s.ignoreSpot) && Prompt(map[], later, s.ignoreSpot)
    requires Legal(RestsIn(earlier, coin, oid), Ops(map[], again, s.ignoreSpot), coin, oid)
    requires RestsIn(s.books, coin, oid) == Effects(RestsIn(earlier, coin, oid), Ops(map[], again, s.ignoreSpot), coin, oid)
    ensures RestsIn(ApplyAll(s, again + later).state.books, coin, oid) == RestsIn(ApplyAll(s, later).state.books, coin, oid)
  {
    RunConcat(s, again, later);
    RunPerformsOps(s, map[], again, coin, oid);
    ReplayIsIdempotent(RestsIn(earlier, coin, oid), Ops(map[], again, s.ignoreSpot), coin, oid);
    RunPerformsOps(ApplyAll(s, again).state, map[], later, coin, oid);
    RunPerformsOps(s, map[], later, coin, oid);
  }
}
