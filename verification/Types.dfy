/** Shared vocabulary of the model: sides, identifiers and saturating 64-bit arithmetic. */
module Types {

  datatype Option<+T> = None | Some(value: T)

  datatype Side = Ask | Bid

  type byte = b: int | 0 <= b < 256

  type Oid = nat
  type Px = nat
  type Sz = nat

  datatype Coin = Coin(name: string)

  const U64_MAX: nat := 0xFFFF_FFFF_FFFF_FFFF

  /** u64::saturating_add */
  function SatAdd(a: nat, b: nat): nat {
    if a + b > U64_MAX then U64_MAX else a + b
  }

  /** u64::saturating_sub */
  function SatSub(a: nat, b: nat): nat {
    if a < b then 0 else a - b
  }

  function Min(a: nat, b: nat): nat {
    if a <= b then a else b
  }

  function Max(a: nat, b: nat): nat {
    if a <= b then b else a
  }

  /** Spot markets: `@`-prefixed names, and PURR/USDC. */
  predicate IsSpot(coin: Coin) {
    (|coin.name| > 0 && coin.name[0] == '@') || coin.name == "PURR/USDC"
  }

  lemma Regroup<T>(a: seq<T>, b: seq<T>, c: seq<T>)
    ensures (a + b) + c == a + (b + c)
  {
  }
}
