/** The billing tables as the services change them, one transaction per method. */
module SubscriptionService {
  import opened Common
  import opened Sums
  import opened Wallet
  import C = Coupons
  import opened Subscriptions

  /** 1 for a row that an expiry pass at time `now` changes. */
  function LapsesAt(now: int): Sub -> int {
    (x: Sub) => if x.status == Active && x.expiresAt < now then 1 else 0
  }

  lemma LapseCountStep(rows: seq<Sub>, n: nat, now: int)
    requires n < |rows|
    ensures SumBy(rows[..n + 1], LapsesAt(now)) == SumBy(rows[..n], LapsesAt(now)) + LapsesAt(now)(rows[n])
  {
    assert rows[..n + 1] == rows[..n] + [rows[n]];
    SumAppend(rows[..n], rows[n], LapsesAt(now));
  }

  class Service {
    var clock: int
    const plans: map<string, Plan>
    var subs: seq<Sub>
    var invoices: seq<Invoice>
    var coupons: map<string, C.Coupon>
    var redemptions: seq<Redemption>
    var book: Book

    constructor (plans: map<string, Plan>, coupons: map<string, C.Coupon>, book: Book)
      ensures State() == Shop(0, plans, [], [], coupons, [], book)
    {
      this.clock, this.plans, this.subs, this.invoices := 0, plans, [], [];
      this.coupons, this.redemptions, this.book := coupons, [], book;
    }

    function State(): Shop
      reads this
    {
      Shop(clock, plans, subs, invoices, coupons, redemptions, book)
    }

    method GetActiveSubscription(user: string) returns (found: Option<nat>)
      ensures found == ActiveSubscription(State(), user)
    {
      found := None;
      for n := 0 to |subs|
        invariant found == LatestActive(subs[..n], user)
      {
        assert subs[..n + 1][..n] == subs[..n];
        if subs[n].user == user && subs[n].status == Active
           && (found.None? || subs[found.value].expiresAt < subs[n].expiresAt) {
          found := Some(n);
        }
      }
      assert subs[..|subs|] == subs;
      if found.Some? && subs[found.value].expiresAt < clock {
        found := None;
      }
    }

    /** `None` when a rule refuses the coupon; nothing is then changed. */
    method RedeemCoupon(code: string, user: string, plan: string, amount: int) returns (split: Option<C.Breakdown>)
      modifies this`coupons, this`redemptions
      ensures match Redeem(old(State()), code, user, plan, amount)
              case None => split.None? && State() == old(State())
              case Some((after, b)) => split == Some(b) && State() == after
    {
      if code !in coupons {
        return None;
      }
      var c := coupons[code];
      var breakdown := C.ComputeDiscount(c, amount);
      if C.CheckActive(c, clock).Some? || breakdown.Err?
         || C.CheckUser(c, plan, UsedBy(redemptions, code, user)).Some?
         || (c.maxRedemptions.Some? && c.redeemed >= c.maxRedemptions.value) {
        return None;
      }
      coupons := coupons[code := c.(redeemed := c.redeemed + 1)];
      redemptions := redemptions + [Redemption(code, user, plan, breakdown.value, None, None)];
      return Some(breakdown.value);
    }

    method ExtendOrStart(user: string, plan: string, days: int) returns (sub: nat)
      modifies this`subs
      ensures (State(), sub) == Extend(old(State()), user, plan, days)
    {
      var existing := GetActiveSubscription(user);
      if existing.Some? {
        sub := existing.value;
        subs := subs[sub := subs[sub].(expiresAt := subs[sub].expiresAt + days * DAY, plan := plan)];
      } else {
        sub := |subs|;
        subs := subs + [Sub(user, plan, clock, clock + days * DAY, Active)];
      }
    }

    /** Debit, extend or start, invoice, link. */
    method SettlePurchase(user: string, plan: string, key: Key, coupon: Option<string>, split: C.Breakdown)
      returns (ok: bool)
      requires plan in plans
      modifies this`subs, this`invoices, this`redemptions, this`book
      ensures match Settle(old(State()), user, plan, key, coupon, split)
              case None => !ok && State() == old(State())
              case Some(after) => ok && State() == after
    {
      if split.final <= 0 {
        return false;
      }
      var (newBook, entry) := Apply(book, Request(user, Debit, -split.final, key));
      if entry.Err? {
        return false;
      }
      book := newBook;
      var sub := ExtendOrStart(user, plan, plans[plan].days);
      if coupon.Some? {
        redemptions := Link(redemptions, coupon.value, user, |invoices|, sub);
      }
      invoices := invoices + [Invoice(user, sub, plan, split.final, entry.value, coupon, split.discount,
                                      if coupon.Some? then Some(split.original) else None)];
      return true;
    }

    method PurchasePlan(user: string, plan: string, key: Key, coupon: Option<string>) returns (ok: bool)
      modifies this
      ensures match Purchase(old(State()), user, plan, key, coupon)
              case None => !ok && State() == old(State())
              case Some(after) => ok && State() == after
    {
      if plan !in plans || !plans[plan].active {
        return false;
      }
      var price := plans[plan].price;
      if coupon.None? {
        ok := SettlePurchase(user, plan, key, None, C.Breakdown(price, 0, price));
        return;
      }
      var savedCoupons, savedRedemptions := coupons, redemptions;
      var split := RedeemCoupon(coupon.value, user, plan, price);
      if split.None? {
        return false;
      }
      ok := SettlePurchase(user, plan, key, coupon, split.value);
      if !ok {
        coupons, redemptions := savedCoupons, savedRedemptions;
      }
    }

    /** Cancel the running subscription and pay back its rest; `ok` is false when the wallet refuses. */
    method RefundRunning(user: string, suffix: string) returns (ok: bool)
      modifies this`subs, this`book
      ensures match RefundRest(old(State()), user, suffix)
              case None => !ok && State() == old(State())
              case Some(after) => ok && State() == after
    {
      var existing := GetActiveSubscription(user);
      if existing.None? || subs[existing.value].plan !in plans {
        return true;
      }
      var i := existing.value;
      var amount := ProratedRefund(plans[subs[i].plan], subs[i].expiresAt, clock);
      if amount > 0 {
        var (newBook, entry) := Apply(book, Request(user, Refund, amount, ProrateKey(suffix)));
        if entry.Err? {
          return false;
        }
        book := newBook;
      }
      subs := subs[i := subs[i].(status := Canceled)];
      return true;
    }

    method ChangePlanTo(user: string, plan: string, suffix: string) returns (ok: bool)
      modifies this
      ensures match ChangePlan(old(State()), user, plan, suffix)
              case None => !ok && State() == old(State())
              case Some(after) => ok && State() == after
    {
      var savedSubs, savedBook := subs, book;
      ok := RefundRunning(user, suffix);
      if ok {
        ok := PurchasePlan(user, plan, ChangeKey(suffix), None);
        if !ok {
          subs, book := savedSubs, savedBook;
        }
      }
    }

    method ExpireDueSubscriptions() returns (count: nat)
      modifies this`subs
      ensures State() == ExpireDue(old(State()))
      ensures count == SumBy(old(subs), LapsesAt(clock))
    {
      ghost var before, now := subs, clock;
      count := 0;
      for n := 0 to |subs|
        invariant |subs| == |before| && count == SumBy(before[..n], LapsesAt(now))
        invariant forall i :: 0 <= i < n ==> subs[i] == LapseRow(before[i], now)
        invariant forall i :: n <= i < |subs| ==> subs[i] == before[i]
      {
        LapseCountStep(before, n, now);
        if subs[n].status == Active && subs[n].expiresAt < clock {
          subs := subs[n := subs[n].(status := Lapsed)];
          count := count + 1;
        }
      }
      assert before[..|subs|] == before;
    }
  }
}
