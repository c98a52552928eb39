/** The fee bump of a same-nonce replacement (pkg/ethkit/replacement.go) and what
    repeating it does.  big.Int.Div on these non-negative amounts is `/`. */
module FeeBump {

  /** 120% of the tip. */
  function BumpTip(tip: int): int { tip * 120 / 100 }

  /** 110% of the fee cap. */
  function BumpCap(cap: int): int { cap * 110 / 100 }

  function TipAfter(tip: int, k: nat): int {
    if k == 0 then tip else BumpTip(TipAfter(tip, k - 1))
  }

  function CapAfter(cap: int, k: nat): int {
    if k == 0 then cap else BumpCap(CapAfter(cap, k - 1))
  }

  /** EIP-1559, "Specification": a transaction whose tip exceeds its fee cap is invalid. */
  predicate ValidFees(tip: int, cap: int) { tip <= cap }

  function Pow(b: nat, k: nat): nat {
    if k == 0 then 1 else b * Pow(b, k - 1)
  }

  lemma {:induction false} PowPositive(b: nat, k: nat)
    requires 0 < b
    ensures 0 < Pow(b, k)
  {
    if k > 0 {
      PowPositive(b, k - 1);
      MulPositive(b, Pow(b, k - 1));
    }
  }

  lemma {:induction false} MulPositive(a: nat, b: nat)
    requires 0 < a && 0 < b
    ensures 0 < a * b
  {
  }

  lemma {:induction false} MulMono(a: nat, x: int, y: int)
    requires x <= y
    ensures a * x <= a * y
  {
  }

  lemma {:induction false} PowOfProduct(a: nat, b: nat, k: nat)
    ensures Pow(a * b, k) == Pow(a, k) * Pow(b, k)
  {
    if k > 0 {
      PowOfProduct(a, b, k - 1);
      var x, y := Pow(a, k - 1), Pow(b, k - 1);
      assert (a * b) * (x * y) == (a * x) * (b * y) by { Shuffle(a, b, x, y); }
    }
  }

  lemma {:induction false} Shuffle(a: nat, b: nat, x: nat, y: nat)
    ensures (a * b) * (x * y) == (a * x) * (b * y)
  {
    assert (a * b) * (x * y) == a * (b * (x * y));
    assert b * (x * y) == x * (b * y);
    assert a * (x * (b * y)) == (a * x) * (b * y);
  }

  /** One bump strictly raises the fee exactly from these amounts on. */
  lemma {:induction false} BumpRaises(tip: nat, cap: nat)
    ensures BumpTip(tip) > tip <==> tip >= 5
    ensures BumpCap(cap) > cap <==> cap >= 10
    ensures BumpTip(tip) >= tip && BumpCap(cap) >= cap
  {
  }

  /** If p*f' >= q*f up to rounding, then p^k * f_k >= q^k * f_0: the step. */
  lemma {:induction false} GrowthStep(p: nat, q: nat, pk: nat, qk: nat, f: int, g: int, f0: int)
    requires p * g >= q * f && pk * f >= qk * f0
    ensures (p * pk) * g >= (q * qk) * f0
  {
    MulMono(pk, q * f, p * g);
    MulMono(q, qk * f0, pk * f);
    assert (p * pk) * g == pk * (p * g);
    assert pk * (q * f) == q * (pk * f);
    assert (q * qk) * f0 == q * (qk * f0);
  }

  /** k replacements raise the cap at least like 1.1^k and the tip like 1.2^k, but
      for a constant lost to rounding. */
  lemma {:induction false} GrowthBelow(tip: int, cap: int, k: nat)
    ensures Pow(10, k) * (CapAfter(cap, k) - 9) >= Pow(11, k) * (cap - 9)
    ensures Pow(5, k) * (TipAfter(tip, k) - 4) >= Pow(6, k) * (tip - 4)
  {
    if k > 0 {
      GrowthBelow(tip, cap, k - 1);
      var c, t := CapAfter(cap, k - 1), TipAfter(tip, k - 1);
      GrowthStep(10, 11, Pow(10, k - 1), Pow(11, k - 1), c - 9, BumpCap(c) - 9, cap - 9);
      GrowthStep(5, 6, Pow(5, k - 1), Pow(6, k - 1), t - 4, BumpTip(t) - 4, tip - 4);
    }
  }

  lemma {:induction false} GrowthStepUp(p: nat, q: nat, pk: nat, qk: nat, f: int, g: int, f0: int)
    requires p * g <= q * f && pk * f <= qk * f0
    ensures (p * pk) * g <= (q * qk) * f0
  {
    MulMono(pk, p * g, q * f);
    MulMono(q, pk * f, qk * f0);
    assert (p * pk) * g == pk * (p * g);
    assert pk * (q * f) == q * (pk * f);
    assert (q * qk) * f0 == q * (qk * f0);
  }

  /** ... and never faster than 1.1^k and 1.2^k. */
  lemma {:induction false} GrowthAbove(tip: int, cap: int, k: nat)
    ensures Pow(10, k) * CapAfter(cap, k) <= Pow(11, k) * cap
    ensures Pow(10, k) * TipAfter(tip, k) <= Pow(12, k) * tip
  {
    if k > 0 {
      GrowthAbove(tip, cap, k - 1);
      var c, t := CapAfter(cap, k - 1), TipAfter(tip, k - 1);
      GrowthStepUp(10, 11, Pow(10, k - 1), Pow(11, k - 1), c, BumpCap(c), cap);
      GrowthStepUp(10, 12, Pow(10, k - 1), Pow(12, k - 1), t, BumpTip(t), tip);
    }
  }

  lemma {:induction false} MulStrict(a: nat, x: int, y: int)
    requires 0 < a && x < y
    ensures a * x < a * y
  {
    MulMono(a, x + 1, y);
    assert a * (x + 1) == a * x + a;
  }

  lemma {:induction false} CancelLeft(a: nat, x: int, y: int)
    requires 0 < a && a * x <= a * y
    ensures x <= y
  {
    if x > y {
      MulStrict(a, y, x);
    }
  }

  /** The fees stay valid through k replacements whenever 12^k * tip fits under
      11^k * (cap - 9). */
  lemma {:induction false} ValidThrough(tip: nat, cap: nat, k: nat)
    requires Pow(12, k) * tip <= Pow(11, k) * (cap - 9)
    ensures ValidFees(TipAfter(tip, k), CapAfter(cap, k))
  {
    GrowthBelow(tip, cap, k);
    GrowthAbove(tip, cap, k);
    PowPositive(10, k);
    CancelLeft(Pow(10, k), TipAfter(tip, k), CapAfter(cap, k) - 9);
  }

  lemma {:induction false} BernoulliStep(k: nat, x: nat, y: nat)
    requires 0 < k && 11 * x >= (10 + k) * y
    ensures 11 * (12 * x) >= (11 + k) * (11 * y)
  {
    var z := k * y;
    MulMono(y, 1, k);
    assert (10 + k) * y == 10 * y + z;
    assert (11 + k) * (11 * y) == 121 * y + 11 * z by {
      assert k * (11 * y) == 11 * z;
    }
  }

  /** (12/11)^k >= 1 + k/11. */
  lemma {:induction false} Bernoulli(k: nat)
    ensures 11 * Pow(12, k) >= (11 + k) * Pow(11, k)
  {
    if k > 0 {
      Bernoulli(k - 1);
      BernoulliStep(k, Pow(12, k - 1), Pow(11, k - 1));
    }
  }

  lemma {:induction false} TwelveBeatsEleven(cap: nat)
    ensures Pow(12, 11 * cap) > Pow(11, 11 * cap) * cap
  {
    var k := 11 * cap;
    Bernoulli(k);
    PowPositive(11, k);
    var y := Pow(11, k);
    assert (11 + k) * y == 11 * (y + y * cap) by {
      assert k * y == 11 * (y * cap);
    }
  }

  lemma {:induction false} MulAssoc(a: int, b: int, c: int)
    ensures a * (b * c) == (a * b) * c
  {
  }

  lemma {:induction false} TipBelow(tip: nat, k: nat)
    requires 5 <= tip
    ensures Pow(10, k) * (TipAfter(tip, k) - 4) >= Pow(12, k)
  {
    GrowthBelow(tip, 0, k);
    PowOfProduct(2, 5, k);
    PowOfProduct(2, 6, k);
    PowPositive(6, k);
    var d, a, b, x := Pow(2, k), Pow(5, k), Pow(6, k), TipAfter(tip, k) - 4;
    MulMono(b, 1, tip - 4);
    MulMono(d, b, a * x);
    MulAssoc(d, a, x);
  }

  /** From tip 5 on, speeding up again and again ends with an invalid transaction,
      however large the cap: after 11 * cap replacements the tip has overtaken it. */
  lemma {:induction false} TipOvertakes(tip: nat, cap: nat)
    requires 5 <= tip
    ensures !ValidFees(TipAfter(tip, 11 * cap), CapAfter(cap, 11 * cap))
  {
    var k := 11 * cap;
    TipBelow(tip, k);
    GrowthAbove(tip, cap, k);
    TwelveBeatsEleven(cap);
    if TipAfter(tip, k) <= CapAfter(cap, k) {
      MulMono(Pow(10, k), TipAfter(tip, k) - 4, CapAfter(cap, k));
    }
  }

  lemma {:induction false} SmallTipStays(tip: nat, cap: nat, k: nat)
    requires tip <= 4
    ensures TipAfter(tip, k) == tip && cap <= CapAfter(cap, k)
  {
    if k > 0 {
      SmallTipStays(tip, cap, k - 1);
    }
  }

  /** Exactly the transactions that can be replaced for ever. */
  lemma {:induction false} ReplaceableForever(tip: nat, cap: nat)
    ensures (forall k: nat :: ValidFees(TipAfter(tip, k), CapAfter(cap, k))) <==> tip <= cap && tip <= 4
  {
    if tip <= cap && tip <= 4 {
      forall k: nat ensures ValidFees(TipAfter(tip, k), CapAfter(cap, k)) {
        SmallTipStays(tip, cap, k);
      }
    }
    if tip > cap {
      assert !ValidFees(TipAfter(tip, 0), CapAfter(cap, 0));
    } else if tip >= 5 {
      TipOvertakes(tip, cap);
      var k: nat := 11 * cap;
      assert !ValidFees(TipAfter(tip, k), CapAfter(cap, k));
    }
  }

  /** GasFees: cap = 2 * base fee + tip. */
  function DefaultCap(baseFee: int, tip: int): int { baseFee * 2 + tip }

  lemma {:induction false} FloorBelow(a: int, b: int)
    ensures a / 10 <= b / 10 <==> a - a % 10 <= b
  {
    assert a == 10 * (a / 10) + a % 10 && b == 10 * (b / 10) + b % 10;
  }

  lemma {:induction false} Tenths(a: nat)
    ensures 10 * a / 100 == a / 10
  {
  }

  lemma {:induction false} LastDigit(a: nat, b: nat)
    ensures (10 * a + b) % 10 == b % 10
  {
  }

  /** One replacement is valid exactly when twelve tenths of the tip, rounded down,
      fit under eleven tenths of the cap. */
  lemma {:induction false} ReplacementIsValid(tip: nat, cap: nat)
    ensures ValidFees(BumpTip(tip), BumpCap(cap)) <==> 12 * tip - (2 * tip) % 10 <= 11 * cap
  {
    Tenths(12 * tip);
    Tenths(11 * cap);
    LastDigit(tip, 2 * tip);
    FloorBelow(12 * tip, 11 * cap);
  }

  lemma {:induction false} CapOut(tip: nat, baseFee: nat, digit: nat)
    requires digit < 10
    ensures 12 * tip - digit <= 11 * (baseFee * 2 + tip) <==> tip - digit <= 22 * baseFee
    ensures tip <= 22 * baseFee ==> tip - digit <= 22 * baseFee
    ensures tip >= 22 * baseFee + 10 ==> tip - digit > 22 * baseFee
  {
  }

  /** With default fees: exactly up to a tip of 22 base fees and what rounding the
      bumped tip down gives away, which is never more than nine. */
  lemma {:induction false} FirstReplacement(baseFee: nat, tip: nat)
    ensures ValidFees(BumpTip(tip), BumpCap(DefaultCap(baseFee, tip))) <==> tip - (2 * tip) % 10 <= 22 * baseFee
    ensures tip <= 22 * baseFee ==> ValidFees(BumpTip(tip), BumpCap(DefaultCap(baseFee, tip)))
    ensures tip >= 22 * baseFee + 10 ==> !ValidFees(BumpTip(tip), BumpCap(DefaultCap(baseFee, tip)))
  {
    ReplacementIsValid(tip, DefaultCap(baseFee, tip));
    CapOut(tip, baseFee, (2 * tip) % 10);
  }
}
