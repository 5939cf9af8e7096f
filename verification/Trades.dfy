/**
 Pairing the two fills of a match into one public trade. Only the previous leg is remembered,
 across batches too, so how the fill stream is cut into batches does not matter.
 */
module Trades {
  import opened Types

  /** `memo` stands for the fields copied into the trade unseen. */
  datatype Fill = Fill(user: nat, coin: Coin, side: Side, px: Px, sz: Sz, crossed: bool, tid: nat, memo: nat)

  /** `side` is the aggressing side. */
  datatype Trade = Trade(coin: Coin, side: Side, px: Px, sz: Sz, tid: nat, memo: nat, buyer: nat, seller: nat)

  function FromFills(bid: Fill, ask: Fill): Option<Trade> {
    if bid.coin != ask.coin || bid.tid != ask.tid || bid.side != Bid || ask.side != Ask then None
    else Some(Trade(ask.coin, if ask.crossed then Ask else Bid, ask.px, ask.sz, ask.tid, ask.memo, bid.user, ask.user))
  }

  /** The two legs of one match, in either order. */
  predicate Matched(a: Fill, b: Fill) {
    a.tid == b.tid && a.coin == b.coin && a.side != b.side
  }

  /** What a stream of fills has led to: the leg held, the trades so far, and the legs given up. */
  datatype Pairer = Pairer(prev: Option<Fill>, trades: seq<Trade>, unpaired: nat)

  function PairOf(prev: Fill, fill: Fill): Option<Trade> {
    if fill.side == Bid then FromFills(fill, prev) else FromFills(prev, fill)
  }

  function Take(p: Pairer, fill: Fill): Pairer {
    if p.prev.None? then p.(prev := Some(fill))
    else if p.prev.value.tid != fill.tid then p.(prev := Some(fill), unpaired := p.unpaired + 1)
    else
      var trade := PairOf(p.prev.value, fill);
      if trade.None? then p.(prev := None, unpaired := p.unpaired + 2)
      else p.(prev := None, trades := p.trades + [trade.value])
  }

  function TakeAll(p: Pairer, fills: seq<Fill>): Pairer
    decreases |fills|
  {
    if fills == [] then p else TakeAll(Take(p, fills[0]), fills[1..])
  }

  function Held(p: Pairer): nat {
    if p.prev.Some? then 1 else 0
  }

  // ----- a trade is a match -----

  /** Two legs with one trade id make a trade exactly when they are the two sides of one coin. */
  lemma PairIffMatched(prev: Fill, fill: Fill)
    requires prev.tid == fill.tid
    ensures PairOf(prev, fill).Some? <==> Matched(prev, fill)
    ensures PairOf(prev, fill).Some? ==>
              var t, buy, sell := PairOf(prev, fill).value, if prev.side == Bid then prev else fill, if prev.side == Bid then fill else prev;
              && t.buyer == buy.user && t.seller == sell.user && t.coin == buy.coin && t.tid == buy.tid
              && (t.side == Ask <==> sell.crossed)
              && t.px == sell.px && t.sz == sell.sz && t.memo == sell.memo
  {
  }

  // ----- conservation -----

  /** Fills in are twice the trades, the legs counted as unpaired, and the leg still held. */
  lemma {:induction false} FillsAreConserved(p: Pairer, fills: seq<Fill>)
    ensures var q := TakeAll(p, fills);
            2 * |q.trades| + q.unpaired + Held(q) == 2 * |p.trades| + p.unpaired + Held(p) + |fills|
    decreases |fills|
  {
    if fills != [] {
      FillsAreConserved(Take(p, fills[0]), fills[1..]);
    }
  }

  // ----- batches -----

  function OfCoin(trades: seq<Trade>, coin: Coin): seq<Trade> {
    if trades == [] then []
    else OfCoin(trades[..|trades| - 1], coin) + if trades[|trades| - 1].coin == coin then [trades[|trades| - 1]] else []
  }

  function Concat(batches: seq<seq<Fill>>): seq<Fill> {
    if batches == [] then [] else batches[0] + Concat(batches[1..])
  }

  /** The trades of one coin as they are sent out, batch after batch. */
  function SentFor(p: Pairer, batches: seq<seq<Fill>>, coin: Coin): seq<Trade>
    decreases |batches|
  {
    if batches == [] then []
    else
      var q := TakeAll(p.(trades := []), batches[0]);
      OfCoin(q.trades, coin) + SentFor(q, batches[1..], coin)
  }

  lemma {:induction false} TakeConcat(p: Pairer, a: seq<Fill>, b: seq<Fill>)
    ensures TakeAll(p, a + b) == TakeAll(TakeAll(p, a), b)
    decreases |a|
  {
    if a == [] {
      assert a + b == b;
    } else {
      assert (a + b)[1..] == a[1..] + b && (a + b)[0] == a[0];
      TakeConcat(Take(p, a[0]), a[1..], b);
    }
  }

  /** Trades made earlier are only carried along. */
  lemma {:induction false} EarlierTradesDoNotMatter(p: Pairer, before: seq<Trade>, fills: seq<Fill>)
    ensures TakeAll(p.(trades := before + p.trades), fills)
         == (var q := TakeAll(p, fills); q.(trades := before + q.trades))
    decreases |fills|
  {
    if fills != [] {
      var p' := Take(p, fills[0]);
      CarriedAlong(p, before, fills[0]);
      EarlierTradesDoNotMatter(p', before, fills[1..]);
    }
  }

  lemma CarriedAlong(p: Pairer, before: seq<Trade>, fill: Fill)
    ensures Take(p.(trades := before + p.trades), fill) == (var q := Take(p, fill); q.(trades := before + q.trades))
  {
    if p.prev.Some? && p.prev.value.tid == fill.tid && PairOf(p.prev.value, fill).Some? {
      var t := PairOf(p.prev.value, fill).value;
      assert (before + p.trades) + [t] == before + (p.trades + [t]);
    }
  }

  lemma {:induction false} OfCoinConcat(a: seq<Trade>, b: seq<Trade>, coin: Coin)
    ensures OfCoin(a + b, coin) == OfCoin(a, coin) + OfCoin(b, coin)
    decreases |b|
  {
    if b == [] {
      assert a + b == a;
    } else {
      var n := |b| - 1;
      assert (a + b)[..|a + b| - 1] == a + b[..n] && (a + b)[|a + b| - 1] == b[n];
      OfCoinConcat(a, b[..n], coin);
    }
  }

  /**
   Batch independence: however a fill stream is cut, each coin's trades, in order, are those of
   the whole stream taken at once.
   */
  lemma {:induction false} BatchesDoNotMatter(p: Pairer, batches: seq<seq<Fill>>, coin: Coin)
    requires p.trades == []
    ensures SentFor(p, batches, coin) == OfCoin(TakeAll(p, Concat(batches)).trades, coin)
    decreases |batches|
  {
    if batches != [] {
      assert p.(trades := []) == p;
      var q := TakeAll(p, batches[0]);
      var rest := Concat(batches[1..]);
      var r := TakeAll(q.(trades := []), rest);
      TakeConcat(p, batches[0], rest);
      assert q.(trades := q.trades + q.(trades := []).trades) == q;
      EarlierTradesDoNotMatter(q.(trades := []), q.trades, rest);
      OfCoinConcat(q.trades, r.trades, coin);
      BatchesDoNotMatter(q.(trades := []), batches[1..], coin);
      SentIgnoresTrades(q, batches[1..], coin);
    }
  }

  lemma SentIgnoresTrades(p: Pairer, batches: seq<seq<Fill>>, coin: Coin)
    ensures SentFor(p, batches, coin) == SentFor(p.(trades := []), batches, coin)
  {
    assert p.(trades := []).(trades := []) == p.(trades := []);
  }

  // ----- a stream of matches -----

  /** Legs come in neighbouring pairs, as the node writes them. */
  predicate AllMatched(fills: seq<Fill>) {
    fills == [] || (|fills| >= 2 && Matched(fills[0], fills[1]) && AllMatched(fills[2..]))
  }

  /** When the node writes both legs of every match side by side, every match is printed and nothing is given up. */
  lemma {:induction false} MatchesAllBecomeTrades(p: Pairer, fills: seq<Fill>)
    requires p.prev.None? && AllMatched(fills)
    ensures var q := TakeAll(p, fills);
            q.prev.None? && q.unpaired == p.unpaired && 2 * |q.trades| == 2 * |p.trades| + |fills|
    decreases |fills|
  {
    if fills != [] {
      var q := Take(Take(p, fills[0]), fills[1]);
      PairIffMatched(fills[0], fills[1]);
      assert TakeAll(Take(p, fills[0]), fills[1..]) == TakeAll(q, fills[1..][1..]);
      assert fills[1..][1..] == fills[2..];
      MatchesAllBecomeTrades(q, fills[2..]);
    }
  }

  // ----- which trades a stream of fills amounts to -----

  /** The print of a match, told from its selling leg and the buyer. */
  function PrintOf(a: Fill, b: Fill): Trade {
    var buy, sell := if a.side == Bid then a else b, if a.side == Bid then b else a;
    Trade(sell.coin, if sell.crossed then Ask else Bid, sell.px, sell.sz, sell.tid, sell.memo, buy.user, sell.user)
  }

  /** From the front: two neighbours with one trade id are taken together, any other fill is given up alone. */
  function Greedy(fills: seq<Fill>): Pairer {
    if |fills| < 2 then Pairer(if fills == [] then None else Some(fills[0]), [], 0)
    else if fills[0].tid != fills[1].tid then
      var r := Greedy(fills[1..]);
      r.(unpaired := 1 + r.unpaired)
    else
      var r := Greedy(fills[2..]);
      if Matched(fills[0], fills[1]) then r.(trades := [PrintOf(fills[0], fills[1])] + r.trades)
      else r.(unpaired := 2 + r.unpaired)
  }

  function Holding(prev: Option<Fill>): seq<Fill> {
    if prev.Some? then [prev.value] else []
  }

  /** What the pairer makes of a stream, whatever it holds already: the greedy pairs, their prints in order, and the rest counted. */
  lemma {:induction false} TradesAreGreedy(p: Pairer, fills: seq<Fill>)
    ensures var g := Greedy(Holding(p.prev) + fills);
            TakeAll(p, fills) == Pairer(g.prev, p.trades + g.trades, p.unpaired + g.unpaired)
    decreases |fills|
  {
    var all := Holding(p.prev) + fills;
    if fills == [] {
      assert p.trades + [] == p.trades;
    } else {
      var p' := Take(p, fills[0]);
      TradesAreGreedy(p', fills[1..]);
      if p.prev.None? {
        assert Holding(p'.prev) + fills[1..] == all;
      } else if p.prev.value.tid != fills[0].tid {
        assert Holding(p'.prev) + fills[1..] == all[1..];
      } else {
        assert Holding(p'.prev) + fills[1..] == all[2..];
        PairIffMatched(p.prev.value, fills[0]);
        var g := Greedy(all[2..]);
        if Matched(p.prev.value, fills[0]) {
          assert PairOf(p.prev.value, fills[0]) == Some(PrintOf(p.prev.value, fills[0]));
          assert (p.trades + [PrintOf(p.prev.value, fills[0])]) + g.trades == p.trades + ([PrintOf(p.prev.value, fills[0])] + g.trades);
        }
      }
    }
  }

  // ----- the object -----

  class TradePairer {
    var prev: Option<Fill>
    var unpaired: nat

    constructor ()
      ensures prev == None && unpaired == 0
    {
      prev, unpaired := None, 0;
    }

    /** Pair one batch; each coin's trades come out in order. */
    method Group(batch: seq<Fill>) returns (byCoin: map<Coin, seq<Trade>>)
      modifies this
      ensures var q := TakeAll(Pairer(old(prev), [], old(unpaired)), batch);
              && prev == q.prev && unpaired == q.unpaired
              && (forall coin :: coin in byCoin <==> OfCoin(q.trades, coin) != [])
              && (forall coin :: coin in byCoin ==> byCoin[coin] == OfCoin(q.trades, coin))
    {
      byCoin := map[];
      var todo := batch;
      ghost var trades: seq<Trade> := [];
      while todo != []
        invariant TakeAll(Pairer(prev, trades, unpaired), todo) == TakeAll(Pairer(old(prev), [], old(unpaired)), batch)
        invariant Grouped(byCoin, trades)
        decreases |todo|
      {
        var fill := todo[0];
        todo := todo[1..];
        if prev.Some? && prev.value.tid == fill.tid {
          var bid, ask := if fill.side == Bid then fill else prev.value, if fill.side == Bid then prev.value else fill;
          var trade := FromFills(bid, ask);
          prev := None;
          if trade.Some? {
            var c := trade.value.coin;
            GroupedSnoc(byCoin, trades, trade.value);
            byCoin := byCoin[c := (if c in byCoin then byCoin[c] else []) + [trade.value]];
            trades := trades + [trade.value];
          } else {
            unpaired := unpaired + 2;
          }
        } else {
          if prev.Some? {
            unpaired := unpaired + 1;
          }
          prev := Some(fill);
        }
      }
      forall coin
        ensures (coin in byCoin <==> OfCoin(trades, coin) != []) && (coin in byCoin ==> byCoin[coin] == OfCoin(trades, coin))
      {
        assert GroupedAt(byCoin, trades, coin);
      }
    }
  }

  ghost predicate GroupedAt(byCoin: map<Coin, seq<Trade>>, trades: seq<Trade>, coin: Coin) {
    (if coin in byCoin then byCoin[coin] else []) == OfCoin(trades, coin) && (coin in byCoin ==> byCoin[coin] != [])
  }

  ghost predicate Grouped(byCoin: map<Coin, seq<Trade>>, trades: seq<Trade>) {
    forall coin: Coin :: GroupedAt(byCoin, trades, coin)
  }

  lemma GroupedSnoc(byCoin: map<Coin, seq<Trade>>, trades: seq<Trade>, t: Trade)
    requires Grouped(byCoin, trades)
    ensures Grouped(byCoin[t.coin := (if t.coin in byCoin then byCoin[t.coin] else []) + [t]], trades + [t])
  {
    assert (trades + [t])[..|trades|] == trades;
    var byCoin', trades' := byCoin[t.coin := (if t.coin in byCoin then byCoin[t.coin] else []) + [t]], trades + [t];
    forall coin: Coin
      ensures GroupedAt(byCoin', trades', coin)
    {
      assert GroupedAt(byCoin, trades, coin);
    }
  }
}
