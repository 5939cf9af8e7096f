/**
 Price bucketing to significant figures. The streaming builder decides whether a level
 belongs to the current bucket by comparing its raw price with the bucket's price; this
 is sound because buckets stay consistent even where the number of digits changes.
 */
module Buckets {
  import opened Types

  datatype Shape = Shape(nSigFigs: Option<nat>, mantissa: Option<nat>)

  /** The shapes subscription validation lets through. */
  predicate ValidShape(shape: Shape) {
    && (shape.nSigFigs.None? ==> shape.mantissa.None?)
    && (shape.nSigFigs.Some? ==> 2 <= shape.nSigFigs.value <= 5)
    && (shape.mantissa.Some? ==> shape.nSigFigs == Some(5) && (shape.mantissa.value == 2 || shape.mantissa.value == 5))
  }

  function Pow10(p: nat): (r: nat)
    ensures r > 0
  {
    if p == 0 then 1 else 10 * Pow10(p - 1)
  }

  function NumDigits(x: nat): (d: nat)
    ensures d > 0
  {
    if x < 10 then 1 else 1 + NumDigits(x / 10)
  }

  function Mantissa(shape: Shape): (m: nat)
    ensures ValidShape(shape) ==> m > 0
  {
    if shape.mantissa.Some? then shape.mantissa.value else 1
  }

  /** The width of the bucket a price falls into. */
  function Increment(px: Px, n: nat, m: nat): nat {
    m * Pow10(SatSub(NumDigits(px), n))
  }

  function Floor(px: Px, inc: nat): nat
    requires inc > 0
  {
    px / inc * inc
  }

  function Ceil(px: Px, inc: nat): nat
    requires inc > 0
  {
    (px + inc - 1) / inc * inc
  }

  lemma MulPositive(a: nat, b: nat)
    requires a > 0 && b > 0
    ensures a * b > 0
  {
  }

  lemma IncrementPositive(px: Px, n: nat, m: nat)
    requires m > 0
    ensures Increment(px, n, m) > 0
  {
    MulPositive(m, Pow10(SatSub(NumDigits(px), n)));
  }

  /** Asks are rounded up, bids down. */
  function Bucket(px: Px, side: Side, shape: Shape): Px
    requires ValidShape(shape)
  {
    if shape.nSigFigs.None? then px
    else
      IncrementPositive(px, shape.nSigFigs.value, Mantissa(shape));
      var inc := Increment(px, shape.nSigFigs.value, Mantissa(shape));
      if side == Ask then Ceil(px, inc) else Floor(px, inc)
  }

  // ----- rounding -----

  ghost predicate Divides(d: nat, x: nat) {
    exists k: nat :: IsMultiple(d, x, k)
  }

  ghost predicate IsMultiple(d: nat, x: nat, k: nat) {
    k * d == x
  }

  lemma MulMono(a: nat, b: nat, c: nat)
    requires a <= b
    ensures a * c <= b * c
  {
    var d: nat := b - a;
    assert (a + d) * c == a * c + d * c;
  }

  lemma MulCancel(a: nat, b: nat, c: nat)
    requires a * c < b * c + c
    ensures a <= b
  {
    if a >= b + 1 {
      MulMono(b + 1, a, c);
    }
  }

  /** q is the quotient when x lies in its multiple's interval. */
  lemma QuotientIs(x: nat, inc: nat, q: nat)
    requires inc > 0 && q * inc <= x < q * inc + inc
    ensures x / inc == q
  {
    var r := x / inc;
    assert r * inc <= x < r * inc + inc;
    MulCancel(r, q, inc);
    MulCancel(q, r, inc);
  }

  lemma FloorBounds(x: nat, inc: nat)
    requires inc > 0
    ensures Floor(x, inc) <= x < Floor(x, inc) + inc
  {
  }

  lemma CeilBounds(x: nat, inc: nat)
    requires inc > 0
    ensures x <= Ceil(x, inc) < x + inc
  {
    FloorBounds(x + inc - 1, inc);
  }

  lemma FloorSame(x: nat, x0: nat, inc: nat)
    requires inc > 0 && Floor(x0, inc) <= x <= x0
    ensures Floor(x, inc) == Floor(x0, inc)
  {
    FloorBounds(x0, inc);
    QuotientIs(x, inc, x0 / inc);
  }

  lemma CeilSame(x: nat, x0: nat, inc: nat)
    requires inc > 0 && x0 <= x <= Ceil(x0, inc)
    ensures Ceil(x, inc) == Ceil(x0, inc)
  {
    CeilBounds(x0, inc);
    QuotientIs(x + inc - 1, inc, (x0 + inc - 1) / inc);
  }

  /** Rounding never passes a multiple of the increment. */
  lemma MultipleBounds(x: nat, inc: nat, top: nat)
    requires inc > 0 && Divides(inc, top)
    ensures x <= top ==> Ceil(x, inc) <= top
    ensures top <= x ==> top <= Floor(x, inc)
    ensures Ceil(top, inc) == top
  {
    var k: nat :| IsMultiple(inc, top, k);
    QuotientIs(top + inc - 1, inc, k);
    CeilBounds(x, inc);
    FloorBounds(x, inc);
    var up, down := (x + inc - 1) / inc, x / inc;
    if x <= top {
      MulCancel(up, k, inc);
      MulMono(up, k, inc);
    }
    if top <= x {
      MulCancel(k, down, inc);
      MulMono(k, down, inc);
    }
  }

  // ----- powers of ten and digit counts -----

  lemma {:induction false} Pow10Add(a: nat, b: nat)
    ensures Pow10(a + b) == Pow10(a) * Pow10(b)
  {
    if a > 0 {
      Pow10Add(a - 1, b);
      assert 10 * (Pow10(a - 1) * Pow10(b)) == 10 * Pow10(a - 1) * Pow10(b);
    }
  }

  lemma {:induction false} Pow10Mono(a: nat, b: nat)
    requires a <= b
    ensures Pow10(a) <= Pow10(b)
  {
    if a < b {
      Pow10Mono(a, b - 1);
    }
  }

  /** A number with d digits lies between 10^(d-1) and 10^d. */
  lemma {:induction false} DigitBounds(x: nat)
    ensures x < Pow10(NumDigits(x))
    ensures x > 0 ==> Pow10(NumDigits(x) - 1) <= x
  {
    if x >= 10 {
      DigitBounds(x / 10);
      assert Pow10(NumDigits(x)) == 10 * Pow10(NumDigits(x / 10));
      assert Pow10(NumDigits(x) - 1) == 10 * Pow10(NumDigits(x / 10) - 1);
    } else {
      assert Pow10(1) == 10 * Pow10(0);
    }
  }

  lemma DigitsOfPower(x: nat, d: nat)
    requires d > 0 && Pow10(d - 1) <= x < Pow10(d)
    ensures NumDigits(x) == d
  {
    DigitBounds(x);
    if NumDigits(x) < d {
      Pow10Mono(NumDigits(x), d - 1);
    } else if NumDigits(x) > d {
      Pow10Mono(d, NumDigits(x) - 1);
    }
  }

  lemma DigitsMono(x: nat, y: nat)
    requires x <= y
    ensures NumDigits(x) <= NumDigits(y)
  {
    DigitBounds(x);
    DigitBounds(y);
    var less: nat := NumDigits(x) - 1;
    if NumDigits(y) <= less {
      Pow10Mono(NumDigits(y), less);
    }
  }

  /** 1, 2 and 5 divide every power of ten from 10 up, so a bucket width divides the powers above it. */
  lemma IncrementDivides(m: nat, p: nat, e: nat)
    requires m == 1 || ((m == 2 || m == 5) && p < e)
    requires p <= e
    ensures Divides(m * Pow10(p), Pow10(e))
  {
    Pow10Add(e - p, p);
    var h := if m == 1 then Pow10(e - p) else (10 / m) * Pow10(e - p - 1);
    assert h * m == Pow10(e - p);
    MulAssoc(h, m, Pow10(p));
    assert IsMultiple(m * Pow10(p), Pow10(e), h);
  }

  lemma MulAssoc(a: nat, b: nat, c: nat)
    ensures a * (b * c) == a * b * c
  {
  }

  // ----- buckets are consistent -----

  /** Price p is further from the touch than q. */
  predicate Beyond(side: Side, p: Px, q: Px) {
    if side == Ask then p > q else p < q
  }

  lemma MantissaDivides(n: nat, m: nat, d: nat, e: nat)
    requires 2 <= n && (m == 1 || m == 2 || m == 5) && e + 1 >= d && e + 1 >= n
    ensures Divides(m * Pow10(SatSub(d, n)), Pow10(e))
  {
    IncrementDivides(m, SatSub(d, n), e);
  }

  lemma BidStaysInBucket(p: Px, p0: Px, n: nat, m: nat)
    requires 2 <= n && (m == 1 || m == 2 || m == 5) && p <= p0
    requires Increment(p, n, m) > 0 && Increment(p0, n, m) > 0
    requires Floor(p0, Increment(p0, n, m)) <= p
    ensures Floor(p, Increment(p, n, m)) == Floor(p0, Increment(p0, n, m))
  {
    var d := NumDigits(p0);
    DigitsMono(p, p0);
    if d > n {
      DigitBounds(p0);
      MantissaDivides(n, m, d, d - 1);
      MultipleBounds(p0, Increment(p0, n, m), Pow10(d - 1));
      DigitsOfPower(p, d);
    }
    FloorSame(p, p0, Increment(p0, n, m));
  }

  lemma AskStaysInBucket(p: Px, p0: Px, n: nat, m: nat)
    requires 2 <= n && (m == 1 || m == 2 || m == 5) && p0 <= p
    requires Increment(p, n, m) > 0 && Increment(p0, n, m) > 0
    requires p <= Ceil(p0, Increment(p0, n, m))
    ensures Ceil(p, Increment(p, n, m)) == Ceil(p0, Increment(p0, n, m))
  {
    var d, inc := NumDigits(p0), Increment(p0, n, m);
    DigitsMono(p0, p);
    DigitBounds(p0);
    var top := if d >= n then d else n;
    Pow10Mono(d, top);
    MantissaDivides(n, m, d, top);
    MultipleBounds(p0, inc, Pow10(top));
    assert p <= Pow10(top);
    if p == Pow10(top) {
      // the bucket ends exactly where the digit count grows
      assert Pow10(top + 1) == 10 * Pow10(top);
      DigitsOfPower(p, top + 1);
      MantissaDivides(n, m, top + 1, top);
      MultipleBounds(p, Increment(p, n, m), p);
    } else {
      DigitsBelow(p, top);
      if d >= n {
        assert NumDigits(p) == d;
      }
      CeilSame(p, p0, inc);
    }
  }

  lemma DigitsBelow(x: nat, d: nat)
    requires d > 0 && x < Pow10(d)
    ensures NumDigits(x) <= d
  {
    DigitBounds(x);
    var less: nat := NumDigits(x) - 1;
    if d <= less {
      Pow10Mono(d, less);
    }
  }

  /**
   The crux of the one-pass builder: for a price no nearer to the touch than p0, comparing it with
   p0's bucket price decides whether it is in that bucket, and otherwise its own bucket lies beyond.
   */
  lemma BucketIsDecidedByPrice(p: Px, p0: Px, side: Side, shape: Shape)
    requires ValidShape(shape) && (p == p0 || Beyond(side, p, p0))
    ensures Bucket(p, side, shape) == Bucket(p0, side, shape) <==> !Beyond(side, p, Bucket(p0, side, shape))
    ensures Beyond(side, p, Bucket(p0, side, shape)) ==> Beyond(side, Bucket(p, side, shape), Bucket(p0, side, shape))
  {
    if shape.nSigFigs.Some? {
      var n, m := shape.nSigFigs.value, Mantissa(shape);
      IncrementPositive(p, n, m);
      IncrementPositive(p0, n, m);
      FloorBounds(p, Increment(p, n, m));
      CeilBounds(p, Increment(p, n, m));
      if !Beyond(side, p, Bucket(p0, side, shape)) {
        if side == Ask {
          AskStaysInBucket(p, p0, n, m);
        } else {
          BidStaysInBucket(p, p0, n, m);
        }
      }
    }
  }

  /** Up to 18e18 no bucket computation leaves 64 bits. */
  lemma BucketFits(px: Px, side: Side, shape: Shape)
    requires ValidShape(shape) && px <= 18 * Pow10(18)
    ensures Bucket(px, side, shape) <= 18 * Pow10(18) <= U64_MAX
    ensures shape.nSigFigs.Some? ==> Increment(px, shape.nSigFigs.value, Mantissa(shape)) <= U64_MAX
  {
    TenTo18();
    if shape.nSigFigs.Some? {
      var n, m := shape.nSigFigs.value, Mantissa(shape);
      var p := SatSub(NumDigits(px), n);
      var inc := Increment(px, n, m);
      IncrementPositive(px, n, m);
      assert px < Pow10(20) by {
        assert Pow10(20) == 10 * Pow10(19) && Pow10(19) == 10 * Pow10(18);
      }
      DigitsBelow(px, 20);
      FloorBounds(px, inc);
      IncrementDivides(m, p, 18);
      var k: nat :| IsMultiple(inc, Pow10(18), k);
      MulAssoc(18, k, inc);
      assert IsMultiple(inc, 18 * Pow10(18), 18 * k);
      MultipleBounds(px, inc, 18 * Pow10(18));
      if k == 0 {
        assert false;
      }
      MulMono(1, k, inc);
    }
  }

  /** The seven shapes a subscription can ask for. */
  lemma ShapesAre(shape: Shape)
    ensures ValidShape(shape) <==>
      shape in [Shape(None, None), Shape(Some(2), None), Shape(Some(3), None), Shape(Some(4), None),
                Shape(Some(5), None), Shape(Some(5), Some(2)), Shape(Some(5), Some(5))]
  {
  }

  // ----- what a bucket is, said outright -----

  /** p is written with d digits; 0 with one. */
  predicate HasDigits(p: Px, d: nat) {
    d > 0 && p < Pow10(d) && (d > 1 ==> Pow10(d - 1) <= p)
  }

  /** Rounding to a multiple of w: up for asks, down for bids, by less than w. */
  predicate StepIs(p: Px, b: Px, side: Side, w: nat, k: nat) {
    b == k * w && (if side == Ask then p <= b < p + w else b <= p < b + w)
  }

  /** How wide a bucket is for prices of d digits. */
  function Width(d: nat, n: nat, mantissa: Option<nat>): nat {
    (if mantissa.Some? then mantissa.value else 1) * (if d > n then Pow10(d - n) else 1)
  }

  predicate RoundsBy(p: Px, b: Px, side: Side, n: nat, mantissa: Option<nat>, d: nat, k: nat) {
    HasDigits(p, d) && StepIs(p, b, side, Width(d, n, mantissa), k)
  }

  /** `b` is the price that `p` is shown at: itself, or rounded at its n-th digit to a multiple of the mantissa. */
  ghost predicate RoundsTo(p: Px, b: Px, side: Side, shape: Shape) {
    match shape.nSigFigs
    case None => b == p
    case Some(n) => exists d: nat, k: nat :: RoundsBy(p, b, side, n, shape.mantissa, d, k)
  }

  lemma DigitsAre(p: Px, d: nat)
    ensures HasDigits(p, d) <==> d == NumDigits(p)
  {
    DigitBounds(p);
    if HasDigits(p, d) {
      if d > 1 {
        DigitsOfPower(p, d);
      }
    }
  }

  lemma StepIsRounding(p: Px, b: Px, side: Side, w: nat)
    requires w > 0
    ensures (exists k: nat :: StepIs(p, b, side, w, k)) <==> b == if side == Ask then Ceil(p, w) else Floor(p, w)
  {
    FloorBounds(p, w);
    CeilBounds(p, w);
    if k: nat :| StepIs(p, b, side, w, k) {
      if side == Ask {
        QuotientIs(p + w - 1, w, k);
      } else {
        QuotientIs(p, w, k);
      }
    }
    if side == Ask && b == Ceil(p, w) {
      assert StepIs(p, b, side, w, (p + w - 1) / w);
    } else if side == Bid && b == Floor(p, w) {
      assert StepIs(p, b, side, w, p / w);
    }
  }

  /** A price has one bucket, and it is this one. */
  lemma BucketIsRounding(p: Px, b: Px, side: Side, shape: Shape)
    requires ValidShape(shape)
    ensures RoundsTo(p, b, side, shape) <==> b == Bucket(p, side, shape)
  {
    if shape.nSigFigs.Some? {
      var n, m, d := shape.nSigFigs.value, shape.mantissa, NumDigits(p);
      var w := Increment(p, n, Mantissa(shape));
      IncrementPositive(p, n, Mantissa(shape));
      assert Width(d, n, m) == w;
      StepIsRounding(p, b, side, w);
      DigitsAre(p, d);
      if d': nat, k: nat :| RoundsBy(p, b, side, n, m, d', k) {
        DigitsAre(p, d');
        assert StepIs(p, b, side, w, k);
      }
      if k: nat :| StepIs(p, b, side, w, k) {
        assert RoundsBy(p, b, side, n, m, d, k);
      }
    }
  }

  lemma TenTo18()
    ensures Pow10(18) == 1_000_000_000_000_000_000
  {
    assert Pow10(3) == 1000 by { assert Pow10(1) == 10 && Pow10(2) == 10 * Pow10(1) && Pow10(3) == 10 * Pow10(2); }
    Pow10Add(3, 3);
    Pow10Add(6, 6);
    Pow10Add(12, 6);
  }
}
