/** Discounts in whole VND, rounded half to even, and the rules for using a coupon. */
module Coupons {
  import opened Common

  datatype DiscountType = Percent | Fixed | Unsupported

  datatype Coupon = Coupon(
    discountType: DiscountType,
    percentOff: Option<int>,
    amountOff: Option<int>,
    maxDiscount: Option<int>,
    minAmount: Option<int>,
    maxRedemptions: Option<int>,
    maxPerUser: int,
    redeemed: int,
    planCodes: seq<string>,
    active: bool,
    validFrom: Option<int>,
    validUntil: Option<int>)

  datatype Breakdown = Breakdown(original: int, discount: int, final: int)

  datatype Error = NotFound | OutsideWindow | Exhausted | AlreadyRedeemed | NotApplicable

  /** n / d rounded to the nearest integer, ties to the even one. */
  function HalfEven(n: int, d: nat): (q: int)
    requires d > 0
    ensures 2 * n - d <= 2 * d * q <= 2 * n + d
    ensures 2 * d * q == 2 * n - d || 2 * d * q == 2 * n + d ==> q % 2 == 0
  {
    var q, r := n / d, n % d;
    assert n == d * q + r;
    if 2 * r < d then q
    else if 2 * r > d then assert 2 * d * (q + 1) == 2 * d * q + 2 * d; q + 1
    else if q % 2 == 0 then q
    else assert 2 * d * (q + 1) == 2 * d * q + 2 * d; q + 1
  }

  /** `q` is `n / d` to the nearest whole number, and even where that is a tie. */
  ghost predicate Rounds(n: int, d: nat, q: int) {
    2 * n - d <= 2 * d * q <= 2 * n + d && (2 * d * q == 2 * n - d || 2 * d * q == 2 * n + d ==> q % 2 == 0)
  }

  lemma MultiplesApart(d: int, gap: int)
    requires d > 0
    ensures gap >= 2 ==> d * gap >= 2 * d
    ensures gap == 1 ==> d * gap == d
    ensures gap == -1 ==> d * gap == -d
    ensures gap <= -2 ==> d * gap <= -2 * d
  {
  }

  lemma RoundsOnce(n: int, d: nat, q: int, r: int)
    requires d > 0 && Rounds(n, d, q) && Rounds(n, d, r)
    ensures q == r
  {
    var x, y, z := d * q, d * r, d * (q - r);
    assert z == x - y;
    assert 2 * d * q == 2 * x && 2 * d * r == 2 * y;
    MultiplesApart(d, q - r);
  }

  /** There is exactly one such number, and rounding finds it. */
  lemma RoundsIffHalfEven(n: int, d: nat, q: int)
    requires d > 0
    ensures Rounds(n, d, q) <==> q == HalfEven(n, d)
  {
    if Rounds(n, d, q) {
      RoundsOnce(n, d, q, HalfEven(n, d));
    }
  }

  /** The discount before it is clamped to the price; `None` when the coupon is misconfigured. */
  function RawDiscount(c: Coupon, amount: int): Option<int> {
    match c.discountType
    case Percent =>
      if c.percentOff.None? then None
      else
        var d := HalfEven(amount * c.percentOff.value, 100);
        Some(if c.maxDiscount.Some? then Min(d, c.maxDiscount.value) else d)
    case Fixed => c.amountOff
    case Unsupported => None
  }

  function ComputeDiscount(c: Coupon, amount: int): Result<Breakdown, Error> {
    if c.minAmount.Some? && amount < c.minAmount.value then Err(NotApplicable)
    else
      match RawDiscount(c, amount)
      case None => Err(NotApplicable)
      case Some(raw) =>
        var discount := Max(0, Min(raw, amount));
        Ok(Breakdown(amount, discount, amount - discount))
  }

  // ----- the discount splits the price

  lemma DiscountSplitsPrice(c: Coupon, amount: int)
    requires 0 <= amount
    ensures match ComputeDiscount(c, amount)
            case Ok(b) => b.original == amount && b.discount + b.final == amount && 0 <= b.discount <= amount
            case Err(e) => e == NotApplicable
    ensures ComputeDiscount(c, amount).Ok? <==>
            (c.minAmount.Some? ==> c.minAmount.value <= amount)
            && (c.discountType == Percent ==> c.percentOff.Some?)
            && (c.discountType == Fixed ==> c.amountOff.Some?)
            && c.discountType != Unsupported
  {
  }

  /** How large the discount is. Up to one hundred percent it is the rounded share of the price, or the
      cap where the share reaches it; beyond, the whole price or the cap; below zero, nothing. A fixed
      coupon takes its amount, as far as the price goes. */
  lemma DiscountOutcome(c: Coupon, a: nat, share: int)
    requires ComputeDiscount(c, a).Ok?
    requires c.discountType == Percent ==> c.percentOff.Some? && Rounds(a * c.percentOff.value, 100, share)
    ensures var discount := ComputeDiscount(c, a).value.discount;
      && (c.discountType == Percent && 0 <= c.percentOff.value <= 100 && c.maxDiscount.None? ==> discount == share)
      && (c.discountType == Percent && 0 <= c.percentOff.value <= 100 && c.maxDiscount.Some? && 0 <= c.maxDiscount.value ==>
            (share >= c.maxDiscount.value ==> discount == c.maxDiscount.value)
            && (share < c.maxDiscount.value ==> discount == share))
      && (c.discountType == Percent && c.percentOff.value > 100 && c.maxDiscount.None? ==> discount == a)
      && (c.discountType == Percent && c.percentOff.value > 100 && c.maxDiscount.Some? && 0 <= c.maxDiscount.value ==>
            (a <= c.maxDiscount.value ==> discount == a)
            && (a > c.maxDiscount.value ==> discount == c.maxDiscount.value))
      && (c.discountType == Percent && c.percentOff.value < 0 ==> discount == 0)
      && (c.discountType == Percent && c.maxDiscount.Some? && c.maxDiscount.value < 0 ==> discount == 0)
      && (c.discountType == Fixed ==>
            c.amountOff.Some?
            && (c.amountOff.value < 0 ==> discount == 0)
            && (0 <= c.amountOff.value <= a ==> discount == c.amountOff.value)
            && (a < c.amountOff.value ==> discount == a))
  {
    if c.discountType == Percent {
      var p := c.percentOff.value;
      RoundsIffHalfEven(a * p, 100, share);
      PercentOutside(a, p);
      ShareInPrice(a, p);
    }
  }

  /** Up to one hundred percent, the rounded share is between nothing and the price. */
  lemma ShareInPrice(a: nat, p: int)
    ensures 0 <= p <= 100 ==> 0 <= HalfEven(a * p, 100) <= a
  {
    if 0 <= p <= 100 {
      assert 0 <= a * p;
      assert a * p == a * 100 - a * (100 - p) && a * (100 - p) >= 0;
    }
  }

  // ----- both parts grow with the price

  /** Percent coupons: one more VND of price moves the rounded discount by 0 or 1. */
  lemma PercentStep(a: int, p: int)
    requires 0 <= p <= 100
    ensures HalfEven(a * p, 100) <= HalfEven((a + 1) * p, 100) <= HalfEven(a * p, 100) + 1
  {
  }

  /** Past one hundred percent the discount already takes the whole price; below zero, nothing. */
  lemma PercentOutside(a: nat, p: int)
    ensures p > 100 ==> a <= HalfEven(a * p, 100)
    ensures p < 0 ==> HalfEven(a * p, 100) <= 0
  {
    if p > 100 {
      assert a * p == a * 100 + a * (p - 100);
      assert 0 <= a * (p - 100);
    }
    if p < 0 {
      assert a * p <= 0;
    }
  }

  function Discount(c: Coupon, amount: int): int
    requires ComputeDiscount(c, amount).Ok?
  {
    ComputeDiscount(c, amount).value.discount
  }

  lemma DiscountStep(c: Coupon, a: nat)
    requires ComputeDiscount(c, a).Ok? && ComputeDiscount(c, a + 1).Ok?
    ensures Discount(c, a) <= Discount(c, a + 1) <= Discount(c, a) + 1
  {
    if c.discountType == Percent {
      var p := c.percentOff.value;
      PercentOutside(a, p);
      PercentOutside(a + 1, p);
      if 0 <= p <= 100 {
        PercentStep(a, p);
      }
    }
  }

  lemma {:induction false} DiscountGrowth(c: Coupon, a: nat, n: nat)
    requires ComputeDiscount(c, a).Ok?
    ensures ComputeDiscount(c, a + n).Ok?
    ensures Discount(c, a) <= Discount(c, a + n) <= Discount(c, a) + n
  {
    if n == 0 {
    } else {
      DiscountGrowth(c, a, n - 1);
      DiscountStep(c, a + (n - 1));
      assert a + (n - 1) + 1 == a + n;
    }
  }

  /** For one coupon and all whole-VND prices it applies to, a dearer plan is never discounted less
      and never ends up cheaper. */
  lemma DiscountMonotone(c: Coupon, a: nat, b: nat)
    requires a <= b && ComputeDiscount(c, a).Ok?
    ensures ComputeDiscount(c, b).Ok?
    ensures ComputeDiscount(c, a).value.discount <= ComputeDiscount(c, b).value.discount
    ensures ComputeDiscount(c, a).value.final <= ComputeDiscount(c, b).value.final
  {
    DiscountGrowth(c, a, b - a);
    DiscountSplitsPrice(c, a);
    DiscountSplitsPrice(c, b);
  }

  // ----- may this coupon be used

  function CheckActive(c: Coupon, now: int): Option<Error> {
    if !c.active then Some(NotFound)
    else if c.validFrom.Some? && now < c.validFrom.value then Some(OutsideWindow)
    else if c.validUntil.Some? && now >= c.validUntil.value then Some(OutsideWindow)
    else if c.maxRedemptions.Some? && c.redeemed >= c.maxRedemptions.value then Some(Exhausted)
    else None
  }

  function CheckUser(c: Coupon, plan: string, used: int): Option<Error> {
    if c.planCodes != [] && plan !in c.planCodes then Some(NotApplicable)
    else if used >= c.maxPerUser then Some(AlreadyRedeemed)
    else None
  }

  /** The guarded increment; fails when the last use is gone. */
  function Increment(c: Coupon): Result<Coupon, Error> {
    if c.maxRedemptions.Some? && c.redeemed >= c.maxRedemptions.value then Err(Exhausted)
    else Ok(c.(redeemed := c.redeemed + 1))
  }
}
