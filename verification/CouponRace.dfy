/**
 Many purchases redeeming one coupon at once. A redemption loads the coupon, counts the user's
 earlier uses, increments the counter under its guard and commits with the purchase; the increment
 holds the coupon's row until then.
 */
module CouponRace {
  import opened Common
  import opened Sums
  import opened Coupons

  datatype Phase = Begun | Loaded | Validated | Holding | Done | Failed

  datatype Call = Call(user: string, plan: string, phase: Phase)

  /** `uses` are the committed redemption rows, by user; `holder` has the coupon's row locked. */
  datatype Desk = Desk(coupon: Coupon, uses: seq<string>, holder: Option<nat>, calls: seq<Call>)

  datatype Event =
    | EBegin(user: string, plan: string)
    | ELoad(id: nat, now: int)
    | EValidate(id: nat)
    | EIncrement(id: nat)
    | ECommit(id: nat)
    | ERollback(id: nat)

  function Move(d: Desk, id: nat, phase: Phase): Desk
    requires id < |d.calls|
  {
    d.(calls := d.calls[id := d.calls[id].(phase := phase)])
  }

  predicate At(d: Desk, id: nat, phase: Phase) {
    id < |d.calls| && d.calls[id].phase == phase
  }

  function ByUser(user: string): string -> int {
    (u: string) => if u == user then 1 else 0
  }

  function UsesBy(d: Desk, user: string): int {
    SumBy(d.uses, ByUser(user))
  }

  function Load(d: Desk, id: nat, now: int): Desk {
    if At(d, id, Begun) then Move(d, id, if CheckActive(d.coupon, now).None? then Loaded else Failed) else d
  }

  function Validate(d: Desk, id: nat): Desk {
    if At(d, id, Loaded) then
      var c := d.calls[id];
      Move(d, id, if CheckUser(d.coupon, c.plan, UsesBy(d, c.user)).None? then Validated else Failed)
    else d
  }

  /** Blocked while another call holds the row; fails when no use is left. */
  function GuardedIncrement(d: Desk, id: nat): Desk {
    if At(d, id, Validated) && d.holder.None? then
      if Increment(d.coupon).Ok? then Move(d, id, Holding).(holder := Some(id)) else Move(d, id, Failed)
    else d
  }

  function Commit(d: Desk, id: nat): Desk {
    if At(d, id, Holding) && Increment(d.coupon).Ok? then
      Move(d, id, Done).(coupon := Increment(d.coupon).value, uses := d.uses + [d.calls[id].user], holder := None)
    else d
  }

  /** The purchase fails, for want of funds or otherwise, and the increment with it. */
  function Rollback(d: Desk, id: nat): Desk {
    if id < |d.calls| && d.calls[id].phase != Done then
      Move(d, id, Failed).(holder := if d.holder == Some(id) then None else d.holder)
    else d
  }

  function Step(d: Desk, e: Event): Desk {
    match e
    case EBegin(user, plan) => d.(calls := d.calls + [Call(user, plan, Begun)])
    case ELoad(id, now) => Load(d, id, now)
    case EValidate(id) => Validate(d, id)
    case EIncrement(id) => GuardedIncrement(d, id)
    case ECommit(id) => Commit(d, id)
    case ERollback(id) => Rollback(d, id)
  }

  function Run(d: Desk, es: seq<Event>): Desk {
    if es == [] then d else Step(Run(d, es[..|es| - 1]), es[|es| - 1])
  }

  // ----- the counter

  function Finished(): Call -> int {
    (c: Call) => if c.phase == Done then 1 else 0
  }

  /** The counter counts the rows, stays within its maximum, and every row belongs to a finished call. */
  ghost predicate CounterOk(d: Desk, before: nat) {
    && d.coupon.redeemed == |d.uses| == before + SumBy(d.calls, Finished())
    && (d.coupon.maxRedemptions.Some? ==> d.coupon.redeemed <= d.coupon.maxRedemptions.value)
  }

  ghost predicate LockOk(d: Desk) {
    && (forall id: nat :: At(d, id, Holding) <==> d.holder.Some? && d.holder.value == id)
    && (d.holder.Some? ==> Increment(d.coupon).Ok?)
  }

  ghost predicate Fresh(d: Desk) {
    && d.calls == [] && d.holder.None? && d.coupon.redeemed == |d.uses|
    && (d.coupon.maxRedemptions.Some? ==> d.coupon.redeemed <= d.coupon.maxRedemptions.value)
  }

  lemma MoveCounts(d: Desk, id: nat, phase: Phase)
    requires id < |d.calls| && d.calls[id].phase != Done
    ensures SumBy(Move(d, id, phase).calls, Finished()) == SumBy(d.calls, Finished()) + if phase == Done then 1 else 0
  {
    SumUpdate(d.calls, id, d.calls[id].(phase := phase), Finished());
  }

  lemma StepKeepsLock(d: Desk, e: Event)
    requires LockOk(d)
    ensures LockOk(Step(d, e))
  {
    var after := Step(d, e);
    forall id: nat ensures At(after, id, Holding) <==> after.holder.Some? && after.holder.value == id {
      assert At(d, id, Holding) <==> d.holder.Some? && d.holder.value == id;
    }
  }

  lemma StepKeepsCounter(d: Desk, e: Event, before: nat)
    requires LockOk(d) && CounterOk(d, before)
    ensures CounterOk(Step(d, e), before)
  {
    match e
    case EBegin(user, plan) => SumAppend(d.calls, Call(user, plan, Begun), Finished());
    case _ =>
      if e.id < |d.calls| && d.calls[e.id].phase != Done {
        MoveCounts(d, e.id, Step(d, e).calls[e.id].phase);
      }
  }

  /** In every interleaving the last use is given once: the counter equals the redemption rows, each
      row belongs to one finished call, and the maximum is never passed. */
  lemma {:induction false} RunKeepsCounter(d: Desk, es: seq<Event>)
    requires Fresh(d)
    ensures LockOk(Run(d, es)) && CounterOk(Run(d, es), |d.uses|)
  {
    if es == [] {
    } else {
      RunKeepsCounter(d, es[..|es| - 1]);
      StepKeepsLock(Run(d, es[..|es| - 1]), es[|es| - 1]);
      StepKeepsCounter(Run(d, es[..|es| - 1]), es[|es| - 1], |d.uses|);
    }
  }
}
