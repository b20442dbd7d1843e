/** What one transaction of the shop does to the tables, and what it costs. */
module SubscriptionOutcomes {
  import opened Common
  import opened Sums
  import opened Wallet
  import C = Coupons
  import opened Subscriptions
  import opened SubscriptionSafety

  /** The subscription the user has now: active, not past its end. */
  ghost predicate Current(s: Shop, user: string, i: nat) {
    && i < |s.subs| && s.subs[i].user == user && s.subs[i].status == Active && s.clock <= s.subs[i].expiresAt
  }

  /** The ledger gains one entry, for this user and amount, and the user's balance moves by it. */
  ghost predicate Posted(b: Book, after: Book, user: string, kind: Kind, amount: int, key: Key) {
    && user in b.balances
    && var balance := b.balances[user] + amount;
       after == Book(b.balances[user := balance], b.ledger + [Entry(user, kind, amount, balance, key)])
  }

  lemma CurrentIsFound(s: Shop, user: string)
    requires OneLive(s)
    ensures match ActiveSubscription(s, user)
            case Some(i) => Current(s, user, i) && forall j :: Current(s, user, j) ==> j == i
            case None => forall j :: !Current(s, user, j)
  {
    ActiveMeansLive(s, user);
  }

  // ----- the refund for what is left

  /** With `d` whole days left of a plan of `n` days, the refund is the price times `d / n`, rounded half
      to even, under the request's own key; the subscription is canceled. Nothing is posted when that
      is not positive. */
  lemma RefundOutcome(s: Shop, user: string, suffix: string, i: nat, d: nat, a: int)
    requires OneLive(s) && BookOk(s.book) && Current(s, user, i) && s.subs[i].plan in s.plans && user in s.book.balances
    requires !HasKey(s.book.ledger, ProrateKey(suffix))
    requires d * DAY <= s.subs[i].expiresAt - s.clock && s.subs[i].expiresAt - s.clock < (d + 1) * DAY
    requires var p := s.plans[s.subs[i].plan]; C.Rounds(p.price * d, if p.days < 1 then 1 else p.days, a)
    ensures var r := RefundRest(s, user, suffix);
      && r.Some?
      && r.value == s.(subs := s.subs[i := s.subs[i].(status := Canceled)], book := r.value.book)
      && (a > 0 ==> Posted(s.book, r.value.book, user, Refund, a, ProrateKey(suffix)))
      && (a <= 0 ==> r.value.book == s.book)
  {
    CurrentIsFound(s, user);
    var p := s.plans[s.subs[i].plan];
    WholeDays(s.subs[i].expiresAt - s.clock, d);
    C.RoundsIffHalfEven(p.price * d, if p.days < 1 then 1 else p.days, a);
    assert ProratedRefund(p, s.subs[i].expiresAt, s.clock) == a;
  }

  lemma WholeDays(left: int, d: nat)
    requires d * DAY <= left < (d + 1) * DAY
    ensures Max(0, left) / DAY == d
  {
  }

  /** The refund grows with the time left, is nothing when none is and the price when all is. */
  lemma RefundGrows(price: nat, n: nat, d: nat, e: nat, a: int, b: int)
    requires n > 0 && d <= e && C.Rounds(price * d, n, a) && C.Rounds(price * e, n, b)
    ensures 0 <= a <= b && (d == 0 ==> a == 0) && (d == n ==> a == price)
  {
    C.RoundsIffHalfEven(price * d, n, a);
    C.RoundsIffHalfEven(price * e, n, b);
    assert price * d <= price * e;
    RoundingGrows(0, price * d, n);
    RoundingGrows(price * d, price * e, n);
    RoundingExact(0, n);
    RoundingExact(price, n);
  }

  lemma RoundingGrows(x: int, y: int, n: nat)
    requires n > 0 && x <= y
    ensures C.HalfEven(x, n) <= C.HalfEven(y, n)
  {
    RoundedApart(x, y, n, C.HalfEven(x, n), C.HalfEven(y, n));
  }

  /** Two rounded quotients in the wrong order would belong to the same number. */
  lemma RoundedApart(x: int, y: int, n: nat, q: int, r: int)
    requires n > 0 && x <= y && 2 * n * q <= 2 * x + n && 2 * y - n <= 2 * n * r
    ensures q <= r || x == y
  {
    var gap := q - r;
    assert 2 * n * q - 2 * n * r == 2 * n * gap;
    assert gap >= 1 ==> 2 * n * gap >= 2 * n;
  }

  lemma RoundingExact(k: int, n: nat)
    requires n > 0
    ensures C.HalfEven(k * n, n) == k
  {
    assert 2 * n * k == 2 * (k * n);
    C.RoundsIffHalfEven(k * n, n, k);
  }

  // ----- a coupon is used

  /** Everything the rules ask of a use of the coupon. */
  ghost predicate Usable(s: Shop, code: string, user: string, plan: string, price: int) {
    && code in s.coupons
    && var c := s.coupons[code];
    && c.active
    && (c.validFrom.Some? ==> c.validFrom.value <= s.clock) && (c.validUntil.Some? ==> s.clock < c.validUntil.value)
    && (c.maxRedemptions.Some? ==> c.redeemed < c.maxRedemptions.value)
    && (c.planCodes == [] || plan in c.planCodes)
    && SumBy(s.redemptions, UseBy(code, user)) < c.maxPerUser
    && (c.minAmount.Some? ==> c.minAmount.value <= price)
    && c.discountType != C.Unsupported
    && (c.discountType == C.Percent ==> c.percentOff.Some?) && (c.discountType == C.Fixed ==> c.amountOff.Some?)
  }

  /** A use goes through exactly when the rules allow it; it is counted and recorded. */
  lemma RedeemOutcome(s: Shop, code: string, user: string, plan: string, price: int)
    ensures var r := Redeem(s, code, user, plan, price);
      && (r.Some? <==> Usable(s, code, user, plan, price))
      && (r.Some? ==>
            var (after, split) := r.value;
            && C.ComputeDiscount(s.coupons[code], price) == Ok(split)
            && after == s.(coupons := s.coupons[code := s.coupons[code].(redeemed := s.coupons[code].redeemed + 1)],
                           redemptions := s.redemptions + [Redemption(code, user, plan, split, None, None)]))
  {
  }

  // ----- a plan is bought

  /** The current subscription is prolonged from its own end under the new plan, or one starts now. */
  ghost predicate Prolonged(s: Shop, after: Shop, user: string, plan: string, sub: nat) {
    && plan in s.plans
    && (Current(s, user, sub) ==>
          after.subs == s.subs[sub := s.subs[sub].(expiresAt := s.subs[sub].expiresAt + s.plans[plan].days * DAY, plan := plan)])
    && (!Current(s, user, sub) ==>
          && (forall j :: !Current(s, user, j)) && sub == |s.subs|
          && after.subs == s.subs + [Sub(user, plan, s.clock, s.clock + s.plans[plan].days * DAY, Active)])
  }

  lemma ExtendProlongs(s: Shop, user: string, plan: string)
    requires OneLive(s) && plan in s.plans
    ensures var (after, sub) := Extend(s, user, plan, s.plans[plan].days);
            Prolonged(s, after, user, plan, sub) && after == s.(subs := after.subs)
  {
    CurrentIsFound(s, user);
  }

  lemma LinkNewest(rs: seq<Redemption>, r: Redemption, invoice: nat, sub: nat)
    requires r.invoice.None?
    ensures Link(rs + [r], r.coupon, r.user, invoice, sub) == rs + [r.(invoice := Some(invoice), sub := Some(sub))]
  {
    assert (rs + [r])[..|rs|] == rs;
  }

  /** A redemption that has its invoice keeps it. */
  lemma {:induction false} LinkedStays(rs: seq<Redemption>, coupon: string, user: string, invoice: nat, sub: nat)
    ensures var after := Link(rs, coupon, user, invoice, sub);
            |after| == |rs| && forall k :: 0 <= k < |rs| && rs[k].invoice.Some? ==> after[k] == rs[k]
  {
    if rs == [] {
    } else {
      LinkedStays(rs[..|rs| - 1], coupon, user, invoice, sub);
    }
  }

  /** A purchase without a coupon goes through, with a fresh key, exactly when the plan is on sale at a
      positive price the user can pay. The price is debited and invoiced, and the time bought added. */
  lemma PlainPurchaseOutcome(s: Shop, user: string, plan: string, key: Key)
    requires OneLive(s) && !HasKey(s.book.ledger, key)
    ensures var r := Purchase(s, user, plan, key, None);
      && (r.Some? <==> plan in s.plans && s.plans[plan].active && 0 < s.plans[plan].price
                       && user in s.book.balances && s.plans[plan].price <= s.book.balances[user])
      && (r.Some? ==>
            var after, price := r.value, s.plans[plan].price;
            exists sub: nat ::
              && Prolonged(s, after, user, plan, sub)
              && Posted(s.book, after.book, user, Debit, -price, key)
              && after.invoices == s.invoices + [Invoice(user, sub, plan, price, |s.book.ledger|, None, 0, None)]
              && after == s.(subs := after.subs, book := after.book, invoices := after.invoices))
  {
    if plan in s.plans && s.plans[plan].active {
      var price := s.plans[plan].price;
      SettleOutcome(s, user, plan, key, None, C.Breakdown(price, 0, price));
    }
  }

  /** With a coupon it goes through exactly when the rules allow the use and the user can pay what is
      left of the price; that is debited and invoiced, and the use recorded with the invoice. */
  lemma CouponPurchaseOutcome(s: Shop, user: string, plan: string, key: Key, code: string)
    requires OneLive(s) && !HasKey(s.book.ledger, key)
    ensures var r := Purchase(s, user, plan, key, Some(code));
      && (r.Some? <==> plan in s.plans && s.plans[plan].active && Usable(s, code, user, plan, s.plans[plan].price)
                       && var left := s.plans[plan].price - C.ComputeDiscount(s.coupons[code], s.plans[plan].price).value.discount;
                          0 < left && user in s.book.balances && left <= s.book.balances[user])
      && (r.Some? ==> CouponBought(s, r.value, user, plan, key, code))
  {
    if plan in s.plans && s.plans[plan].active {
      var price := s.plans[plan].price;
      RedeemOutcome(s, code, user, plan, price);
      if Usable(s, code, user, plan, price) {
        CouponSettles(s, user, plan, key, code);
      }
    }
  }

  lemma CouponSettles(s: Shop, user: string, plan: string, key: Key, code: string)
    requires OneLive(s) && !HasKey(s.book.ledger, key) && plan in s.plans && s.plans[plan].active
    requires Usable(s, code, user, plan, s.plans[plan].price)
    ensures var r, left := Purchase(s, user, plan, key, Some(code)),
                           s.plans[plan].price - C.ComputeDiscount(s.coupons[code], s.plans[plan].price).value.discount;
      && (r.Some? <==> 0 < left && user in s.book.balances && left <= s.book.balances[user])
      && (r.Some? ==> CouponBought(s, r.value, user, plan, key, code))
  {
    var price := s.plans[plan].price;
    RedeemOutcome(s, code, user, plan, price);
    var (used, split) := Redeem(s, code, user, plan, price).value;
    assert OneLive(used);
    SettleOutcome(used, user, plan, key, Some(code), split);
    if Settle(used, user, plan, key, Some(code), split).Some? {
      var after := Settle(used, user, plan, key, Some(code), split).value;
      CouponLinked(s, used, after, user, plan, key, code, split, after.invoices[|s.invoices|].sub);
    }
  }

  lemma CouponLinked(s: Shop, used: Shop, after: Shop, user: string, plan: string, key: Key, code: string,
                     split: C.Breakdown, sub: nat)
    requires plan in s.plans && code in s.coupons && C.ComputeDiscount(s.coupons[code], s.plans[plan].price) == Ok(split)
    requires used == s.(coupons := s.coupons[code := s.coupons[code].(redeemed := s.coupons[code].redeemed + 1)],
                        redemptions := s.redemptions + [Redemption(code, user, plan, split, None, None)])
    requires SettledAs(used, after, user, plan, key, Some(code), split, sub)
    ensures CouponBoughtAs(s, after, user, plan, key, code, sub)
  {
    LinkNewest(s.redemptions, Redemption(code, user, plan, split, None, None), |s.invoices|, sub);
    assert forall j :: Current(used, user, j) <==> Current(s, user, j);
  }

  ghost predicate CouponBought(s: Shop, after: Shop, user: string, plan: string, key: Key, code: string) {
    exists sub: nat :: CouponBoughtAs(s, after, user, plan, key, code, sub)
  }

  ghost predicate CouponBoughtAs(s: Shop, after: Shop, user: string, plan: string, key: Key, code: string, sub: nat) {
    && plan in s.plans && code in s.coupons
    && var price, c := s.plans[plan].price, s.coupons[code];
    && C.ComputeDiscount(c, price).Ok?
    && var split := C.ComputeDiscount(c, price).value;
    && var left := price - split.discount;
    && Prolonged(s, after, user, plan, sub)
    && Posted(s.book, after.book, user, Debit, -left, key)
    && after.invoices == s.invoices + [Invoice(user, sub, plan, left, |s.book.ledger|, Some(code), split.discount, Some(price))]
    && after.coupons == s.coupons[code := c.(redeemed := c.redeemed + 1)]
    && after.redemptions == s.redemptions + [Redemption(code, user, plan, split, Some(|s.invoices|), Some(sub))]
    && after.clock == s.clock && after.plans == s.plans
  }

  /** What a settled purchase leaves behind. */
  ghost predicate SettledAs(s: Shop, after: Shop, user: string, plan: string, key: Key, coupon: Option<string>,
                            split: C.Breakdown, sub: nat) {
    && Prolonged(s, after, user, plan, sub)
    && Posted(s.book, after.book, user, Debit, -split.final, key)
    && after.invoices == s.invoices + [Invoice(user, sub, plan, split.final, |s.book.ledger|, coupon, split.discount,
                                               if coupon.Some? then Some(split.original) else None)]
    && after.redemptions == (if coupon.Some? then Link(s.redemptions, coupon.value, user, |s.invoices|, sub) else s.redemptions)
    && after.clock == s.clock && after.plans == s.plans && after.coupons == s.coupons
  }

  lemma SettleOutcome(s: Shop, user: string, plan: string, key: Key, coupon: Option<string>, split: C.Breakdown)
    requires OneLive(s) && plan in s.plans && !HasKey(s.book.ledger, key)
    ensures var r := Settle(s, user, plan, key, coupon, split);
      && (r.Some? <==> 0 < split.final && user in s.book.balances && split.final <= s.book.balances[user])
      && (r.Some? ==> |r.value.invoices| == |s.invoices| + 1
                      && SettledAs(s, r.value, user, plan, key, coupon, split, r.value.invoices[|s.invoices|].sub))
  {
    if 0 < split.final && user in s.book.balances && split.final <= s.book.balances[user] {
      DebitPosts(s.book, user, split.final, key);
      PaidProlongs(s, s.(book := Apply(s.book, Request(user, Debit, -split.final, key)).0), user, plan);
    }
  }

  lemma DebitPosts(b: Book, user: string, amount: int, key: Key)
    requires 0 < amount && user in b.balances && amount <= b.balances[user] && !HasKey(b.ledger, key)
    ensures var (after, entry) := Apply(b, Request(user, Debit, -amount, key));
            entry == Ok(|b.ledger|) && Posted(b, after, user, Debit, -amount, key)
  {
  }

  lemma PaidProlongs(s: Shop, paid: Shop, user: string, plan: string)
    requires OneLive(s) && plan in s.plans && paid == s.(book := paid.book)
    ensures var (after, sub) := Extend(paid, user, plan, s.plans[plan].days);
            Prolonged(s, after, user, plan, sub) && after == paid.(subs := after.subs)
  {
    ExtendProlongs(paid, user, plan);
    assert forall j :: Current(paid, user, j) <==> Current(s, user, j);
  }

  // ----- a plan is changed

  /** Changing the plan cancels the current subscription, refunds what is left of it and buys the new
      plan from now; with fresh keys it goes through exactly when the new plan is on sale at a positive
      price that the balance with the refund covers. */
  lemma ChangeOutcome(s: Shop, user: string, plan: string, suffix: string, i: nat, d: nat, a: int)
    requires OneLive(s) && BookOk(s.book) && Current(s, user, i) && s.subs[i].plan in s.plans && user in s.book.balances
    requires !HasKey(s.book.ledger, ProrateKey(suffix)) && !HasKey(s.book.ledger, ChangeKey(suffix))
    requires d * DAY <= s.subs[i].expiresAt - s.clock && s.subs[i].expiresAt - s.clock < (d + 1) * DAY
    requires var p := s.plans[s.subs[i].plan]; C.Rounds(p.price * d, if p.days < 1 then 1 else p.days, a)
    ensures var r := ChangePlan(s, user, plan, suffix);
      && (r.Some? <==> plan in s.plans && s.plans[plan].active && 0 < s.plans[plan].price
                       && s.plans[plan].price <= s.book.balances[user] + Max(a, 0))
      && (r.Some? ==>
            var after, price := r.value, s.plans[plan].price;
            && after.subs == s.subs[i := s.subs[i].(status := Canceled)]
                             + [Sub(user, plan, s.clock, s.clock + s.plans[plan].days * DAY, Active)]
            && after.book.balances == s.book.balances[user := s.book.balances[user] + Max(a, 0) - price]
            && |after.book.ledger| == |s.book.ledger| + (if a > 0 then 2 else 1)
            && after.invoices == s.invoices + [Invoice(user, |s.subs|, plan, price, |after.book.ledger| - 1, None, 0, None)]
            && after.coupons == s.coupons && after.redemptions == s.redemptions)
  {
    RefundOutcome(s, user, suffix, i, d, a);
    var mid := RefundRest(s, user, suffix).value;
    CancelLeavesNone(s, mid, user, i);
    assert !HasKey(mid.book.ledger, ChangeKey(suffix));
    PlainPurchaseOutcome(mid, user, plan, ChangeKey(suffix));
  }

  lemma CancelLeavesNone(s: Shop, mid: Shop, user: string, i: nat)
    requires OneLive(s) && Current(s, user, i) && mid.clock == s.clock
    requires mid.subs == s.subs[i := s.subs[i].(status := Canceled)]
    ensures OneLive(mid) && forall j :: !Current(mid, user, j)
  {
  }

  /** An expiry pass ends exactly the active subscriptions whose time is over. */
  lemma ExpiryOutcome(s: Shop)
    ensures var after := ExpireDue(s);
      && after == s.(subs := after.subs) && |after.subs| == |s.subs|
      && forall i :: 0 <= i < |s.subs| ==>
           after.subs[i] == if s.subs[i].status == Active && s.subs[i].expiresAt < s.clock
                            then s.subs[i].(status := Lapsed) else s.subs[i]
  {
  }
}
