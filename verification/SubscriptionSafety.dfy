/** Money, time and coupon uses are conserved over every run of the shop. */
module SubscriptionSafety {
  import opened Common
  import opened Sums
  import opened Wallet
  import C = Coupons
  import opened Subscriptions

  // ----- at most one live subscription per user

  predicate Live(x: Sub, now: int) {
    x.status == Active && now <= x.expiresAt
  }

  ghost predicate OneLive(s: Shop) {
    forall i, j :: 0 <= i < j < |s.subs| && s.subs[i].user == s.subs[j].user ==>
      !(Live(s.subs[i], s.clock) && Live(s.subs[j], s.clock))
  }

  lemma ActiveMeansLive(s: Shop, user: string)
    ensures match ActiveSubscription(s, user)
            case Some(i) => i < |s.subs| && s.subs[i].user == user && Live(s.subs[i], s.clock)
            case None => forall i :: 0 <= i < |s.subs| && s.subs[i].user == user ==> !Live(s.subs[i], s.clock)
  {
  }

  lemma ExtendKeepsOne(s: Shop, user: string, plan: string, days: int)
    requires OneLive(s)
    ensures OneLive(Extend(s, user, plan, days).0)
  {
  }

  // ----- a subscription lasts as long as was paid for

  function Bought(plans: map<string, Plan>, sub: nat): Invoice -> int {
    (v: Invoice) => if v.sub == sub && v.plan in plans then plans[v.plan].days else 0
  }

  ghost predicate LengthOk(s: Shop, i: nat)
    requires i < |s.subs|
  {
    s.subs[i].expiresAt - s.subs[i].startedAt == DAY * SumBy(s.invoices, Bought(s.plans, i))
  }

  ghost predicate Lengths(s: Shop) {
    && (forall k :: 0 <= k < |s.invoices| ==> s.invoices[k].sub < |s.subs|)
    && (forall i :: 0 <= i < |s.subs| ==> LengthOk(s, i))
  }

  lemma {:induction false} NothingBought(invoices: seq<Invoice>, plans: map<string, Plan>, sub: nat)
    requires forall k :: 0 <= k < |invoices| ==> invoices[k].sub < sub
    ensures SumBy(invoices, Bought(plans, sub)) == 0
  {
    if invoices == [] {
    } else {
      NothingBought(invoices[..|invoices| - 1], plans, sub);
    }
  }

  lemma ExtendKeepsLengths(s: Shop, user: string, plan: string, v: Invoice)
    requires Lengths(s) && plan in s.plans
    requires v.plan == plan && v.sub == Extend(s, user, plan, s.plans[plan].days).1
    ensures var after := Extend(s, user, plan, s.plans[plan].days).0.(invoices := s.invoices + [v]);
            Lengths(after)
  {
    var after := Extend(s, user, plan, s.plans[plan].days).0.(invoices := s.invoices + [v]);
    ActiveMeansLive(s, user);
    forall i | 0 <= i < |after.subs| ensures LengthOk(after, i) {
      SumAppend(s.invoices, v, Bought(s.plans, i));
      if i < |s.subs| {
        assert LengthOk(s, i);
      } else {
        NothingBought(s.invoices, s.plans, i);
      }
    }
  }

  // ----- debits pay for invoices

  function DebitPart(): Entry -> int {
    (e: Entry) => if e.kind == Debit then e.amount else 0
  }

  function Billed(): Invoice -> int {
    (v: Invoice) => v.amount
  }

  ghost predicate DebitsPayInvoices(s: Shop) {
    SumBy(s.book.ledger, DebitPart()) + SumBy(s.invoices, Billed()) == 0
  }

  // ----- coupon uses

  function UseOf(code: string): Redemption -> int {
    (r: Redemption) => if r.coupon == code then 1 else 0
  }

  ghost predicate CouponOk(s: Shop, code: string)
    requires code in s.coupons
  {
    var c := s.coupons[code];
    && c.redeemed == SumBy(s.redemptions, UseOf(code))
    && (c.maxRedemptions.Some? ==> c.redeemed <= c.maxRedemptions.value)
    && (forall user :: UsedBy(s.redemptions, code, user) > 0 ==> UsedBy(s.redemptions, code, user) <= c.maxPerUser)
  }

  ghost predicate CouponsOk(s: Shop) {
    && (forall code :: code in s.coupons ==> CouponOk(s, code))
    && (forall k :: 0 <= k < |s.redemptions| ==> s.redemptions[k].coupon in s.coupons)
  }

  lemma RedeemKeepsCoupons(s: Shop, code: string, user: string, plan: string, amount: int)
    requires CouponsOk(s) && Redeem(s, code, user, plan, amount).Some?
    ensures CouponsOk(Redeem(s, code, user, plan, amount).value.0)
  {
    var after := Redeem(s, code, user, plan, amount).value.0;
    var r := after.redemptions[|s.redemptions|];
    forall k | k in after.coupons ensures CouponOk(after, k) {
      assert CouponOk(s, k);
      SumAppend(s.redemptions, r, UseOf(k));
      forall u ensures UsedBy(after.redemptions, k, u) > 0
                       ==> UsedBy(after.redemptions, k, u) <= after.coupons[k].maxPerUser {
        SumAppend(s.redemptions, r, UseBy(k, u));
        assert UsedBy(after.redemptions, k, u)
            == UsedBy(s.redemptions, k, u) + if k == code && u == user then 1 else 0;
      }
    }
  }

  /** Linking a redemption to its invoice leaves who used what as it was. */
  lemma {:induction false} LinkKeepsUses(rs: seq<Redemption>, coupon: string, user: string, invoice: nat, sub: nat)
    ensures var after := Link(rs, coupon, user, invoice, sub);
            |after| == |rs| && forall k :: 0 <= k < |rs| ==>
              after[k].coupon == rs[k].coupon && after[k].user == rs[k].user && after[k].split == rs[k].split
  {
    if rs == [] {
    } else {
      LinkKeepsUses(rs[..|rs| - 1], coupon, user, invoice, sub);
    }
  }

  lemma SameUsesKeepCoupons(s: Shop, after: Shop)
    requires CouponsOk(s) && after.coupons == s.coupons && |after.redemptions| == |s.redemptions|
    requires forall k :: 0 <= k < |s.redemptions| ==>
               after.redemptions[k].coupon == s.redemptions[k].coupon && after.redemptions[k].user == s.redemptions[k].user
    ensures CouponsOk(after)
  {
    forall code | code in after.coupons ensures CouponOk(after, code) {
      assert CouponOk(s, code);
      SumSame(s.redemptions, after.redemptions, UseOf(code));
      forall user ensures UsedBy(after.redemptions, code, user) == UsedBy(s.redemptions, code, user) {
        SumSame(s.redemptions, after.redemptions, UseBy(code, user));
      }
    }
  }

  // ----- the invariant

  ghost predicate Inv(s: Shop) {
    BookOk(s.book) && OneLive(s) && Lengths(s) && DebitsPayInvoices(s) && CouponsOk(s)
  }

  lemma SettleKeepsMoney(s: Shop, user: string, plan: string, key: Key, coupon: Option<string>, split: C.Breakdown)
    requires BookOk(s.book) && DebitsPayInvoices(s) && plan in s.plans
    requires Settle(s, user, plan, key, coupon, split).Some? && !HasKey(s.book.ledger, key)
    ensures var after := Settle(s, user, plan, key, coupon, split).value;
            BookOk(after.book) && DebitsPayInvoices(after)
  {
    var after := Settle(s, user, plan, key, coupon, split).value;
    var req := DebitOf(user, split.final, key).value;
    ApplyKeepsBook(s.book, req);
    SumAppend(s.book.ledger, EntryFor(s.book, req), DebitPart());
    SumAppend(s.invoices, after.invoices[|s.invoices|], Billed());
  }

  lemma SettleKeepsRest(s: Shop, user: string, plan: string, key: Key, coupon: Option<string>, split: C.Breakdown)
    requires OneLive(s) && Lengths(s) && CouponsOk(s) && plan in s.plans
    requires Settle(s, user, plan, key, coupon, split).Some?
    ensures var after := Settle(s, user, plan, key, coupon, split).value;
            OneLive(after) && Lengths(after) && CouponsOk(after)
  {
    var after := Settle(s, user, plan, key, coupon, split).value;
    var paid := s.(book := after.book);
    SameBookLengths(s, paid);
    var v := after.invoices[|s.invoices|];
    ExtendKeepsOne(paid, user, plan, s.plans[plan].days);
    ExtendKeepsLengths(paid, user, plan, v);
    var extended := Extend(paid, user, plan, s.plans[plan].days).0.(invoices := s.invoices + [v]);
    assert after == extended.(redemptions := after.redemptions);
    SameSubs(extended, after);
    if coupon.Some? {
      LinkKeepsUses(s.redemptions, coupon.value, user, |s.invoices|, v.sub);
    }
    SameUsesKeepCoupons(s, after);
  }

  lemma SameBookLengths(s: Shop, after: Shop)
    requires Lengths(s) && after.subs == s.subs && after.invoices == s.invoices && after.plans == s.plans
    ensures Lengths(after)
  {
    forall i | 0 <= i < |after.subs| ensures LengthOk(after, i) {
      assert LengthOk(s, i);
    }
  }

  lemma SameSubs(s: Shop, after: Shop)
    requires OneLive(s) && Lengths(s)
    requires after.subs == s.subs && after.invoices == s.invoices && after.plans == s.plans && after.clock == s.clock
    ensures OneLive(after) && Lengths(after)
  {
    SameBookLengths(s, after);
  }

  lemma PurchaseKeeps(s: Shop, user: string, plan: string, key: Key, coupon: Option<string>)
    requires Inv(s) && Purchase(s, user, plan, key, coupon).Some? && !HasKey(s.book.ledger, key)
    ensures Inv(Purchase(s, user, plan, key, coupon).value)
  {
    var price := s.plans[plan].price;
    match coupon
    case None =>
      SettleKeepsMoney(s, user, plan, key, None, C.Breakdown(price, 0, price));
      SettleKeepsRest(s, user, plan, key, None, C.Breakdown(price, 0, price));
    case Some(code) =>
      var (used, split) := Redeem(s, code, user, plan, price).value;
      RedeemKeepsCoupons(s, code, user, plan, price);
      SameSubs(s, used);
      SettleKeepsMoney(used, user, plan, key, coupon, split);
      SettleKeepsRest(used, user, plan, key, coupon, split);
  }

  lemma CancelKeeps(s: Shop, i: nat)
    requires OneLive(s) && Lengths(s) && i < |s.subs|
    ensures var after := s.(subs := s.subs[i := s.subs[i].(status := Canceled)]);
            OneLive(after) && Lengths(after)
  {
    var after := s.(subs := s.subs[i := s.subs[i].(status := Canceled)]);
    forall k | 0 <= k < |after.subs| ensures LengthOk(after, k) {
      assert LengthOk(s, k);
    }
  }

  lemma RefundKeeps(s: Shop, user: string, suffix: string)
    requires Inv(s) && RefundRest(s, user, suffix).Some?
    ensures Inv(RefundRest(s, user, suffix).value)
    ensures forall key: Key :: HasKey(RefundRest(s, user, suffix).value.book.ledger, key) && !key.ProrateKey?
              ==> HasKey(s.book.ledger, key)
  {
    var after := RefundRest(s, user, suffix).value;
    if after != s {
      ActiveMeansLive(s, user);
      var i := ActiveSubscription(s, user).value;
      CancelKeeps(s, i);
      var canceled := s.(subs := after.subs);
      SameSubs(canceled, after);
      SameUsesKeepCoupons(s, after);
      if after.book != s.book {
        var amount := ProratedRefund(s.plans[s.subs[i].plan], s.subs[i].expiresAt, s.clock);
        PostedRefund(s, Request(user, Refund, amount, ProrateKey(suffix)));
      }
    }
  }

  lemma PostedRefund(s: Shop, req: Request)
    requires BookOk(s.book) && req.kind == Refund && SignOk(req.kind, req.amount) && req.key.ProrateKey?
    ensures BookOk(Apply(s.book, req).0)
    ensures SumBy(Apply(s.book, req).0.ledger, DebitPart()) == SumBy(s.book.ledger, DebitPart())
    ensures forall key: Key :: HasKey(Apply(s.book, req).0.ledger, key) && !key.ProrateKey? ==> HasKey(s.book.ledger, key)
  {
    ApplyKeepsBook(s.book, req);
    if Apply(s.book, req).0 != s.book {
      SumAppend(s.book.ledger, EntryFor(s.book, req), DebitPart());
    }
  }

  lemma TopupKeeps(s: Shop, user: string, amount: int, key: Key)
    requires Inv(s) && Credit(user, amount, key).Ok?
    ensures Inv(s.(book := Apply(s.book, Credit(user, amount, key).value).0))
  {
    var req := Credit(user, amount, key).value;
    var after := s.(book := Apply(s.book, req).0);
    ApplyKeepsBook(s.book, req);
    SameSubs(s, after);
    SameUsesKeepCoupons(s, after);
    if after != s {
      SumAppend(s.book.ledger, EntryFor(s.book, req), DebitPart());
    }
  }

  /** Time passes and lapsed rows are marked: nothing else moves. */
  lemma ClockKeeps(s: Shop, after: Shop)
    requires Inv(s) && s.clock <= after.clock && after == s.(clock := after.clock, subs := after.subs)
    requires |after.subs| == |s.subs|
    requires forall i :: 0 <= i < |s.subs| ==>
               after.subs[i] == s.subs[i] || after.subs[i] == s.subs[i].(status := Lapsed)
    ensures Inv(after)
  {
    forall k | 0 <= k < |after.subs| ensures LengthOk(after, k) {
      assert LengthOk(s, k);
    }
    SameUsesKeepCoupons(s, after);
  }

  /** The caller supplied a key the ledger has not seen. */
  predicate FreshKey(s: Shop, e: Event) {
    match e
    case EPurchase(_, _, key, _) => !HasKey(s.book.ledger, ClientKey(key))
    case EChange(_, _, suffix) => !HasKey(s.book.ledger, ChangeKey(suffix))
    case _ => true
  }

  lemma StepKeeps(s: Shop, e: Event)
    requires Inv(s) && FreshKey(s, e)
    ensures Inv(Step(s, e))
  {
    if Attempt(s, e).Some? {
      match e
      case EPurchase(user, plan, key, coupon) => PurchaseKeeps(s, user, plan, ClientKey(key), coupon);
      case EChange(user, plan, suffix) =>
        RefundKeeps(s, user, suffix);
        PurchaseKeeps(RefundRest(s, user, suffix).value, user, plan, ChangeKey(suffix), None);
      case ETopup(user, amount, key) => TopupKeeps(s, user, amount, key);
      case EExpire => ClockKeeps(s, ExpireDue(s));
      case ETick(dt) => ClockKeeps(s, s.(clock := s.clock + dt));
    }
  }

  ghost predicate FreshRun(s: Shop, es: seq<Event>) {
    es == [] || (FreshRun(s, es[..|es| - 1]) && FreshKey(Run(s, es[..|es| - 1]), es[|es| - 1]))
  }

  /** Over every run with fresh keys: one live subscription per user, each exactly as long as the
      plans bought into it, debits equal to invoices, and coupon counters equal to redemptions and
      within their limits. */
  lemma {:induction false} RunKeeps(s: Shop, es: seq<Event>)
    requires Inv(s) && FreshRun(s, es)
    ensures Inv(Run(s, es))
  {
    if es == [] {
    } else {
      RunKeeps(s, es[..|es| - 1]);
      StepKeeps(Run(s, es[..|es| - 1]), es[|es| - 1]);
    }
  }

  /** What a replayed key does: the debit is answered from the ledger, the invoice is issued anyway.
      A successful purchase, with or without a coupon, keeps debits and invoices equal exactly when
      its key was unused. */
  lemma DebitMatchesInvoiceIffKeyFresh(s: Shop, user: string, plan: string, key: Key, coupon: Option<string>)
    requires Inv(s) && Purchase(s, user, plan, key, coupon).Some?
    ensures DebitsPayInvoices(Purchase(s, user, plan, key, coupon).value) <==> !HasKey(s.book.ledger, key)
  {
    if !HasKey(s.book.ledger, key) {
      PurchaseKeeps(s, user, plan, key, coupon);
    } else {
      var price := s.plans[plan].price;
      match coupon
      case None => ReplayIsUnpaid(s, user, plan, key, None, C.Breakdown(price, 0, price));
      case Some(code) =>
        var (used, split) := Redeem(s, code, user, plan, price).value;
        ReplayIsUnpaid(used, user, plan, key, coupon, split);
    }
  }

  lemma ReplayIsUnpaid(s: Shop, user: string, plan: string, key: Key, coupon: Option<string>, split: C.Breakdown)
    requires DebitsPayInvoices(s) && plan in s.plans && HasKey(s.book.ledger, key)
    requires Settle(s, user, plan, key, coupon, split).Some?
    ensures !DebitsPayInvoices(Settle(s, user, plan, key, coupon, split).value)
  {
    var after := Settle(s, user, plan, key, coupon, split).value;
    SumAppend(s.invoices, after.invoices[|s.invoices|], Billed());
  }

  // ----- a run that replays a key

  /** A shop with one plan and one user, before anything happens. */
  function Opening(user: string, plan: string, price: int, days: int): Shop {
    Shop(0, map[plan := Plan(price, days, true)], [], [], map[], [], Book(map[user := 0], []))
  }

  lemma TopupFunds(user: string, plan: string, price: int, days: int)
    requires price > 0
    ensures var s := Opening(user, plan, price, days);
            Step(s, ETopup(user, price, TopupKey(0)))
            == s.(book := Book(map[user := price], [Entry(user, Topup, price, price, TopupKey(0))]))
  {
  }

  lemma FirstPurchase(s: Shop, user: string, plan: string, key: Key)
    requires plan in s.plans && s.plans[plan].active && s.plans[plan].price > 0
    requires user in s.book.balances && s.book.balances[user] >= s.plans[plan].price && !HasKey(s.book.ledger, key)
    ensures var r := Purchase(s, user, plan, key, None);
            && r.Some? && r.value.plans == s.plans && r.value.clock == s.clock
            && r.value.book == Post(s.book, Entry(user, Debit, -s.plans[plan].price,
                                                  s.book.balances[user] - s.plans[plan].price, key))
  {
  }

  lemma SecondPurchase(s: Shop, user: string, plan: string, key: Key, i: nat)
    requires plan in s.plans && s.plans[plan].active && s.plans[plan].price > 0
    requires i < |s.book.ledger| && s.book.ledger[i].key == key && UniqueKeys(s.book.ledger)
    requires s.book.ledger[i].user == user && s.book.ledger[i].kind == Debit
             && s.book.ledger[i].amount == -s.plans[plan].price
    ensures Purchase(s, user, plan, key, None).Some?
  {
    assert HasKey(s.book.ledger, key) && IndexOf(s.book.ledger, key) == i;
  }

  /** From an opening shop: top up, buy, buy again with the same key. The second purchase goes
      through unpaid. */
  lemma ReplayIsReachable(user: string, plan: string, price: int, days: int, key: string) returns (es: seq<Event>)
    requires price > 0
    ensures var s := Opening(user, plan, price, days);
            Inv(s) && !DebitsPayInvoices(Run(s, es))
  {
    var s := Opening(user, plan, price, days);
    var top, buy := ETopup(user, price, TopupKey(0)), EPurchase(user, plan, key, None);
    es := [top, buy, buy];
    RunThree(s, top, buy, buy);
    OpeningIsSound(user, plan, price, days);
    TopupFunds(user, plan, price, days);
    StepKeeps(s, top);
    BuyTwice(Step(s, top), user, plan, key);
  }

  lemma OpeningIsSound(user: string, plan: string, price: int, days: int)
    ensures Inv(Opening(user, plan, price, days))
  {
  }

  lemma RunThree(s: Shop, a: Event, b: Event, c: Event)
    ensures Run(s, [a, b, c]) == Step(Step(Step(s, a), b), c)
  {
    assert [a, b, c][..2] == [a, b] && [a, b][..1] == [a] && [a][..0] == [];
    assert Run(s, [a]) == Step(s, a);
    assert Run(s, [a, b]) == Step(Step(s, a), b);
  }

  /** Wherever a purchase goes through, so does its replay, and the books no longer agree. */
  lemma BuyTwice(s: Shop, user: string, plan: string, key: string)
    requires Inv(s) && !HasKey(s.book.ledger, ClientKey(key))
    requires plan in s.plans && s.plans[plan].active && s.plans[plan].price > 0
    requires user in s.book.balances && s.book.balances[user] >= s.plans[plan].price
    ensures var buy := EPurchase(user, plan, key, None);
            !DebitsPayInvoices(Step(Step(s, buy), buy))
  {
    var buy := EPurchase(user, plan, key, None);
    FirstPurchase(s, user, plan, ClientKey(key));
    StepKeeps(s, buy);
    var bought := Step(s, buy);
    assert bought.book.ledger[|s.book.ledger|].key == ClientKey(key);
    SecondPurchase(bought, user, plan, ClientKey(key), |s.book.ledger|);
    DebitMatchesInvoiceIffKeyFresh(bought, user, plan, ClientKey(key), None);
  }
}
