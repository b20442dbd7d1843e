/**
 Buying, changing and expiring plans. Every operation is one transaction: where the source raises,
 the result is `None` and nothing is kept. Times are integers, `DAY` of them to a day.
 */
module Subscriptions {
  import opened Common
  import opened Sums
  import opened Wallet
  import C = Coupons

  datatype Plan = Plan(price: int, days: int, active: bool)

  datatype SubStatus = Active | Canceled | Lapsed

  datatype Sub = Sub(user: string, plan: string, startedAt: int, expiresAt: int, status: SubStatus)

  datatype Invoice = Invoice(
    user: string, sub: nat, plan: string, amount: int, entry: nat,
    coupon: Option<string>, discount: int, original: Option<int>)

  datatype Redemption = Redemption(
    coupon: string, user: string, plan: string, split: C.Breakdown, invoice: Option<nat>, sub: Option<nat>)

  datatype Shop = Shop(
    clock: int,
    plans: map<string, Plan>,
    subs: seq<Sub>,
    invoices: seq<Invoice>,
    coupons: map<string, C.Coupon>,
    redemptions: seq<Redemption>,
    book: Book)

  // ----- the active subscription

  predicate Candidate(s: Sub, user: string) {
    s.user == user && s.status == Active
  }

  /** The active row of the user that expires last. */
  function LatestActive(subs: seq<Sub>, user: string): (latest: Option<nat>)
    ensures latest.Some? ==> latest.value < |subs| && Candidate(subs[latest.value], user)
    ensures latest.Some? ==> forall k :: 0 <= k < |subs| && Candidate(subs[k], user)
                                         ==> subs[k].expiresAt <= subs[latest.value].expiresAt
    ensures latest.None? ==> forall k :: 0 <= k < |subs| ==> !Candidate(subs[k], user)
  {
    if subs == [] then None
    else
      var n := |subs| - 1;
      var latest := LatestActive(subs[..n], user);
      if Candidate(subs[n], user) && (latest.None? || subs[latest.value].expiresAt < subs[n].expiresAt)
      then Some(n) else latest
  }

  function ActiveSubscription(s: Shop, user: string): Option<nat> {
    var latest := LatestActive(s.subs, user);
    if latest.Some? && s.clock <= s.subs[latest.value].expiresAt then latest else None
  }

  // ----- coupons

  function UseBy(coupon: string, user: string): Redemption -> int {
    (r: Redemption) => if r.coupon == coupon && r.user == user then 1 else 0
  }

  function UsedBy(rs: seq<Redemption>, coupon: string, user: string): int {
    SumBy(rs, UseBy(coupon, user))
  }

  /** Validate, count the use under its guard, and write the redemption row. */
  function Redeem(s: Shop, code: string, user: string, plan: string, amount: int): Option<(Shop, C.Breakdown)> {
    if code !in s.coupons then None
    else
      var c := s.coupons[code];
      if C.CheckActive(c, s.clock).Some? then None
      else
        match C.ComputeDiscount(c, amount)
        case Err(_) => None
        case Ok(split) =>
          if C.CheckUser(c, plan, UsedBy(s.redemptions, code, user)).Some? then None
          else
            match C.Increment(c)
            case Err(_) => None
            case Ok(used) =>
              Some((s.(coupons := s.coupons[code := used],
                       redemptions := s.redemptions + [Redemption(code, user, plan, split, None, None)]),
                    split))
  }

  /** Set the links of the user's latest unlinked redemption of the coupon. */
  function Link(rs: seq<Redemption>, coupon: string, user: string, invoice: nat, sub: nat): seq<Redemption> {
    if rs == [] then []
    else
      var n := |rs| - 1;
      if rs[n].coupon == coupon && rs[n].user == user && rs[n].invoice.None?
      then rs[..n] + [rs[n].(invoice := Some(invoice), sub := Some(sub))]
      else Link(rs[..n], coupon, user, invoice, sub) + [rs[n]]
  }

  // ----- purchase

  function Extend(s: Shop, user: string, plan: string, days: int): (Shop, nat) {
    match ActiveSubscription(s, user)
    case Some(i) =>
      (s.(subs := s.subs[i := s.subs[i].(expiresAt := s.subs[i].expiresAt + days * DAY, plan := plan)]), i)
    case None =>
      (s.(subs := s.subs + [Sub(user, plan, s.clock, s.clock + days * DAY, Active)]), |s.subs|)
  }

  /** Debit the final price, extend or start the subscription, issue the invoice. */
  function Settle(s: Shop, user: string, plan: string, key: Key, coupon: Option<string>, split: C.Breakdown): Option<Shop>
    requires plan in s.plans
  {
    match DebitOf(user, split.final, key)
    case Err(_) => None
    case Ok(req) =>
      var (book, entry) := Apply(s.book, req);
      if entry.Err? then None
      else
        var (extended, sub) := Extend(s.(book := book), user, plan, s.plans[plan].days);
        var invoice := Invoice(user, sub, plan, split.final, entry.value, coupon, split.discount,
                               if coupon.Some? then Some(split.original) else None);
        Some(extended.(invoices := s.invoices + [invoice],
                       redemptions := if coupon.Some?
                                      then Link(s.redemptions, coupon.value, user, |s.invoices|, sub)
                                      else s.redemptions))
  }

  function Purchase(s: Shop, user: string, plan: string, key: Key, coupon: Option<string>): Option<Shop> {
    if plan !in s.plans || !s.plans[plan].active then None
    else
      var price := s.plans[plan].price;
      match coupon
      case None => Settle(s, user, plan, key, None, C.Breakdown(price, 0, price))
      case Some(code) =>
        match Redeem(s, code, user, plan, price)
        case None => None
        case Some((used, split)) => Settle(used, user, plan, key, coupon, split)
  }

  // ----- change of plan

  /** Whole days left, at the price of the current plan, rounded half to even. */
  function ProratedRefund(plan: Plan, expiresAt: int, now: int): int {
    var totalDays := Max(1, plan.days);
    var remainingDays := Max(0, expiresAt - now) / DAY;
    C.HalfEven(plan.price * remainingDays, totalDays)
  }

  function RefundRest(s: Shop, user: string, suffix: string): Option<Shop> {
    match ActiveSubscription(s, user)
    case None => Some(s)
    case Some(i) =>
      if s.subs[i].plan !in s.plans then Some(s)
      else
        var canceled := s.(subs := s.subs[i := s.subs[i].(status := Canceled)]);
        match RefundOf(user, ProratedRefund(s.plans[s.subs[i].plan], s.subs[i].expiresAt, s.clock), ProrateKey(suffix))
        case Err(_) => Some(canceled)
        case Ok(req) =>
          var (book, entry) := Apply(s.book, req);
          if entry.Err? then None else Some(canceled.(book := book))
  }

  function ChangePlan(s: Shop, user: string, plan: string, suffix: string): Option<Shop> {
    match RefundRest(s, user, suffix)
    case None => None
    case Some(mid) => Purchase(mid, user, plan, ChangeKey(suffix), None)
  }

  function LapseRow(x: Sub, now: int): Sub {
    if x.status == Active && x.expiresAt < now then x.(status := Lapsed) else x
  }

  function ExpireDue(s: Shop): Shop {
    s.(subs := seq(|s.subs|, i requires 0 <= i < |s.subs| => LapseRow(s.subs[i], s.clock)))
  }

  datatype Event =
    | EPurchase(user: string, plan: string, key: string, coupon: Option<string>)
    | EChange(user: string, plan: string, suffix: string)
    | ETopup(user: string, amount: int, walletKey: Key)
    | EExpire
    | ETick(dt: nat)

  function Attempt(s: Shop, e: Event): Option<Shop> {
    match e
    case EPurchase(user, plan, key, coupon) => Purchase(s, user, plan, ClientKey(key), coupon)
    case EChange(user, plan, suffix) => ChangePlan(s, user, plan, suffix)
    case ETopup(user, amount, walletKey) =>
      (match Credit(user, amount, walletKey)
       case Ok(req) => Some(s.(book := Apply(s.book, req).0))
       case Err(_) => None)
    case EExpire => Some(ExpireDue(s))
    case ETick(dt) => Some(s.(clock := s.clock + dt))
  }

  function Step(s: Shop, e: Event): Shop {
    var r := Attempt(s, e);
    if r.Some? then r.value else s
  }

  function Run(s: Shop, es: seq<Event>): Shop {
    if es == [] then s else Step(Run(s, es[..|es| - 1]), es[|es| - 1])
  }
}
