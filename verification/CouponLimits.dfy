/**
 The per-user limit of a coupon is read once, at validation, and has no guard of its own: how many
 rows a user can end up with, whatever happens next.
 */
module CouponLimits {
  import opened Common
  import opened Sums
  import opened Coupons
  import opened CouponRace

  function InFlight(user: string): Call -> int {
    (c: Call) => if c.user == user && (c.phase == Validated || c.phase == Holding) then 1 else 0
  }

  /** Validated calls of the user that may still write a row. */
  function Pending(d: Desk, user: string): int {
    SumBy(d.calls, InFlight(user))
  }

  /** The rows the user can reach without validating again: those written, and one for each open
      validated call as far as the coupon's global uses last. */
  function Reach(d: Desk, user: string): int {
    UsesBy(d, user)
    + (if d.coupon.maxRedemptions.Some? then Min(Pending(d, user), d.coupon.maxRedemptions.value - d.coupon.redeemed)
       else Pending(d, user))
  }

  ghost predicate Sound(d: Desk) {
    && LockOk(d)
    && (d.coupon.maxRedemptions.Some? ==> d.coupon.redeemed <= d.coupon.maxRedemptions.value)
  }

  lemma PendingNonNegative(d: Desk, user: string)
    ensures 0 <= Pending(d, user)
    ensures Sound(d) ==> UsesBy(d, user) <= Reach(d, user) <= UsesBy(d, user) + Pending(d, user)
  {
    SumNonNegative(d.calls, InFlight(user));
  }

  lemma MovePending(d: Desk, id: nat, phase: Phase, user: string)
    requires id < |d.calls|
    ensures var c := d.calls[id];
            Pending(Move(d, id, phase), user)
            == Pending(d, user) + InFlight(user)(c.(phase := phase)) - InFlight(user)(c)
  {
    SumUpdate(d.calls, id, d.calls[id].(phase := phase), InFlight(user));
  }

  // ----- no step but a validation raises the reach

  predicate Validates(d: Desk, e: Event, user: string) {
    e.EValidate? && e.id < |d.calls| && d.calls[e.id].user == user
  }

  function Own(d: Desk, id: nat, user: string): int
    requires id < |d.calls|
  {
    if d.calls[id].user == user then 1 else 0
  }

  lemma CommitRows(d: Desk, id: nat, user: string)
    requires At(d, id, Holding) && Increment(d.coupon).Ok?
    ensures UsesBy(Commit(d, id), user) == UsesBy(d, user) + Own(d, id, user)
  {
    SumAppend(d.uses, d.calls[id].user, ByUser(user));
  }

  lemma CommitPending(d: Desk, id: nat, user: string)
    requires At(d, id, Holding) && Increment(d.coupon).Ok?
    ensures Pending(Commit(d, id), user) == Pending(d, user) - Own(d, id, user)
  {
    MovePending(d, id, Done, user);
  }

  lemma CommitReach(d: Desk, id: nat, user: string)
    requires At(d, id, Holding) && Increment(d.coupon).Ok?
    ensures Reach(Commit(d, id), user) <= Reach(d, user)
    ensures d.calls[id].user == user ==> Reach(Commit(d, id), user) == Reach(d, user)
  {
    CommitRows(d, id, user);
    CommitPending(d, id, user);
  }

  lemma CommitKeepsReach(d: Desk, id: nat, user: string)
    ensures Reach(Commit(d, id), user) <= Reach(d, user)
  {
    if At(d, id, Holding) && Increment(d.coupon).Ok? {
      CommitReach(d, id, user);
    }
  }

  lemma OtherMovesKeepReach(d: Desk, id: nat, now: int, user: string)
    ensures Reach(Load(d, id, now), user) <= Reach(d, user)
    ensures Reach(GuardedIncrement(d, id), user) <= Reach(d, user)
    ensures Reach(Rollback(d, id), user) <= Reach(d, user)
  {
    if id < |d.calls| {
      MovePending(d, id, Failed, user);
      MovePending(d, id, Loaded, user);
      MovePending(d, id, Holding, user);
    }
  }

  lemma ForeignValidationKeepsReach(d: Desk, id: nat, user: string)
    requires !Validates(d, EValidate(id), user)
    ensures Reach(Validate(d, id), user) == Reach(d, user)
  {
    if At(d, id, Loaded) {
      MovePending(d, id, Validate(d, id).calls[id].phase, user);
    }
  }

  lemma StepKeepsReach(d: Desk, e: Event, user: string)
    requires !Validates(d, e, user)
    ensures Reach(Step(d, e), user) <= Reach(d, user)
  {
    match e
    case EBegin(u, plan) => SumAppend(d.calls, Call(u, plan, Begun), InFlight(user));
    case EValidate(id) => ForeignValidationKeepsReach(d, id, user);
    case ECommit(id) => CommitKeepsReach(d, id, user);
    case ELoad(id, now) => OtherMovesKeepReach(d, id, now, user);
    case _ => OtherMovesKeepReach(d, e.id, 0, user);
  }

  lemma StepKeepsSound(d: Desk, e: Event)
    requires Sound(d)
    ensures Sound(Step(d, e)) && Step(d, e).coupon == d.coupon.(redeemed := Step(d, e).coupon.redeemed)
  {
    StepKeepsLock(d, e);
  }

  /** No validation of this user along the run. */
  ghost predicate Quiet(d: Desk, es: seq<Event>, user: string) {
    es == [] || (Quiet(d, es[..|es| - 1], user) && !Validates(Run(d, es[..|es| - 1]), es[|es| - 1], user))
  }

  lemma {:induction false} RunKeepsSound(d: Desk, es: seq<Event>)
    requires Sound(d)
    ensures Sound(Run(d, es)) && Run(d, es).coupon == d.coupon.(redeemed := Run(d, es).coupon.redeemed)
  {
    if es == [] {
    } else {
      RunKeepsSound(d, es[..|es| - 1]);
      StepKeepsSound(Run(d, es[..|es| - 1]), es[|es| - 1]);
    }
  }

  lemma {:induction false} QuietKeepsReach(d: Desk, es: seq<Event>, user: string)
    requires Sound(d) && Quiet(d, es, user)
    ensures Reach(Run(d, es), user) <= Reach(d, user)
  {
    if es == [] {
    } else {
      QuietKeepsReach(d, es[..|es| - 1], user);
      StepKeepsReach(Run(d, es[..|es| - 1]), es[|es| - 1], user);
    }
  }

  // ----- and the whole reach can be had

  lemma RunSnoc(d: Desk, es: seq<Event>, e: Event)
    ensures Run(d, es + [e]) == Step(Run(d, es), e)
  {
    assert (es + [e])[..|es + [e]| - 1] == es;
  }

  lemma {:induction false} RunConcat(d: Desk, es: seq<Event>, fs: seq<Event>)
    ensures Run(d, es + fs) == Run(Run(d, es), fs)
  {
    if fs == [] {
      assert es + fs == es;
    } else {
      var n := |fs| - 1;
      RunConcat(d, es, fs[..n]);
      assert (es + fs)[..|es + fs| - 1] == es + fs[..n];
    }
  }

  ghost predicate NoValidations(es: seq<Event>) {
    forall k :: 0 <= k < |es| ==> !es[k].EValidate?
  }

  lemma {:induction false} NoValidationsAreQuiet(d: Desk, es: seq<Event>, user: string)
    requires NoValidations(es)
    ensures Quiet(d, es, user)
  {
    if es == [] {
    } else {
      NoValidationsAreQuiet(d, es[..|es| - 1], user);
    }
  }

  lemma {:induction false} SomeoneWaits(calls: seq<Call>, user: string) returns (id: nat)
    requires SumBy(calls, InFlight(user)) > 0
    ensures id < |calls| && calls[id].user == user && (calls[id].phase == Validated || calls[id].phase == Holding)
  {
    var n := |calls| - 1;
    if InFlight(user)(calls[n]) == 1 {
      id := n;
    } else {
      id := SomeoneWaits(calls[..n], user);
    }
  }

  lemma OwnHolderCommits(d: Desk, id: nat, user: string)
    requires Sound(d) && d.holder == Some(id) && At(d, id, Holding) && d.calls[id].user == user
    ensures var after := Commit(d, id);
            Sound(after) && after.holder.None? && Reach(after, user) == Reach(d, user)
  {
    StepKeepsSound(d, ECommit(id));
    CommitReach(d, id, user);
  }

  lemma ForeignHolderGivesUp(d: Desk, id: nat, user: string)
    requires Sound(d) && d.holder == Some(id) && At(d, id, Holding) && d.calls[id].user != user
    ensures var after := Rollback(d, id);
            Sound(after) && after.holder.None? && Reach(after, user) == Reach(d, user)
  {
    StepKeepsSound(d, ERollback(id));
    MovePending(d, id, Failed, user);
  }

  lemma RunOne(d: Desk, e: Event)
    ensures Run(d, [e]) == Step(d, e)
  {
    assert [e][..0] == [];
  }

  /** Free the coupon's row: the user's own call commits, anybody else's is rolled back. */
  lemma FreeTheRow(d: Desk, user: string) returns (es: seq<Event>)
    requires Sound(d)
    ensures NoValidations(es) && Sound(Run(d, es)) && Run(d, es).holder.None?
    ensures Reach(Run(d, es), user) == Reach(d, user)
  {
    if d.holder.None? {
      es := [];
    } else {
      var id := d.holder.value;
      assert At(d, id, Holding);
      if d.calls[id].user == user {
        es := [ECommit(id)];
        RunOne(d, ECommit(id));
        OwnHolderCommits(d, id, user);
      } else {
        es := [ERollback(id)];
        RunOne(d, ERollback(id));
        ForeignHolderGivesUp(d, id, user);
      }
    }
  }

  function ServeOne(d: Desk, id: nat): Desk {
    Commit(GuardedIncrement(d, id), id)
  }

  lemma Served(d: Desk, id: nat, user: string)
    requires Sound(d) && d.holder.None? && At(d, id, Validated) && d.calls[id].user == user && Increment(d.coupon).Ok?
    ensures var after := ServeOne(d, id);
            && Sound(after) && after.holder.None?
            && Pending(after, user) == Pending(d, user) - 1 && UsesBy(after, user) == UsesBy(d, user) + 1
            && Reach(after, user) == Reach(d, user)
  {
    StepKeepsSound(d, EIncrement(id));
    var held := GuardedIncrement(d, id);
    StepKeepsSound(held, ECommit(id));
    MovePending(d, id, Holding, user);
    CommitRows(held, id, user);
    CommitPending(held, id, user);
    CommitReach(held, id, user);
  }

  /** With the row free, the user's open calls are served one after the other while uses last. */
  lemma {:induction false} ServeAll(d: Desk, user: string) returns (es: seq<Event>)
    requires Sound(d) && d.holder.None?
    ensures NoValidations(es) && UsesBy(Run(d, es), user) == Reach(d, user)
    decreases Pending(d, user)
  {
    PendingNonNegative(d, user);
    if UsesBy(d, user) == Reach(d, user) {
      es := [];
    } else {
      var id := SomeoneWaits(d.calls, user);
      assert !At(d, id, Holding);
      Served(d, id, user);
      PendingNonNegative(ServeOne(d, id), user);
      var rest := ServeAll(ServeOne(d, id), user);
      ServeThenRest(d, id, rest);
      es := [EIncrement(id), ECommit(id)] + rest;
    }
  }

  lemma ServeThenRest(d: Desk, id: nat, rest: seq<Event>)
    ensures Run(d, [EIncrement(id), ECommit(id)] + rest) == Run(ServeOne(d, id), rest)
  {
    RunOne(d, EIncrement(id));
    RunSnoc(d, [EIncrement(id)], ECommit(id));
    assert [EIncrement(id)] + [ECommit(id)] == [EIncrement(id), ECommit(id)];
    RunConcat(d, [EIncrement(id), ECommit(id)], rest);
  }

  lemma ReachIsReached(d: Desk, user: string) returns (es: seq<Event>)
    requires Sound(d)
    ensures NoValidations(es) && UsesBy(Run(d, es), user) == Reach(d, user)
  {
    var free := FreeTheRow(d, user);
    var serve := ServeAll(Run(d, free), user);
    RunConcat(d, free, serve);
    es := free + serve;
  }

  // ----- the exact conditions

  /** In every reachable state: the limit survives every continuation in which the user validates no
      further call exactly when the reach is within it, for any number of open calls. */
  lemma LimitSurvivesIffReachWithin(d: Desk, es: seq<Event>, user: string)
    requires Fresh(d)
    ensures var now := Run(d, es);
            (forall fs :: Quiet(now, fs, user) ==> UsesBy(Run(now, fs), user) <= now.coupon.maxPerUser)
            <==> Reach(now, user) <= now.coupon.maxPerUser
  {
    RunKeepsSound(d, es);
    var now := Run(d, es);
    if Reach(now, user) <= now.coupon.maxPerUser {
      forall fs | Quiet(now, fs, user) ensures UsesBy(Run(now, fs), user) <= now.coupon.maxPerUser {
        QuietKeepsReach(now, fs, user);
        RunKeepsSound(now, fs);
        PendingNonNegative(Run(now, fs), user);
      }
    } else {
      var fs := ReachIsReached(now, user);
      NoValidationsAreQuiet(now, fs, user);
    }
  }

  /** Every validation of the user that goes through leaves the reach within the limit. */
  ghost predicate Roomy(d: Desk, es: seq<Event>, user: string) {
    es == [] ||
      var mid, e := Run(d, es[..|es| - 1]), es[|es| - 1];
      && Roomy(d, es[..|es| - 1], user)
      && (Validates(mid, e, user) && At(Step(mid, e), e.id, Validated) && At(mid, e.id, Loaded) ==>
            Reach(Step(mid, e), user) <= d.coupon.maxPerUser)
  }

  lemma FailedValidationKeepsReach(d: Desk, id: nat, user: string)
    requires !(At(d, id, Loaded) && At(Validate(d, id), id, Validated))
    ensures Reach(Validate(d, id), user) == Reach(d, user)
  {
    if At(d, id, Loaded) {
      MovePending(d, id, Failed, user);
    }
  }

  /** Over every run whose validations leave room, however many overlap, nobody exceeds the limit. */
  lemma {:induction false} RoomyRunsKeepTheLimit(d: Desk, es: seq<Event>, user: string)
    requires Sound(d) && Reach(d, user) <= d.coupon.maxPerUser && Roomy(d, es, user)
    ensures UsesBy(Run(d, es), user) <= Reach(Run(d, es), user) <= d.coupon.maxPerUser
  {
    RunKeepsSound(d, es);
    PendingNonNegative(Run(d, es), user);
    if es == [] {
    } else {
      var mid, e := Run(d, es[..|es| - 1]), es[|es| - 1];
      RoomyRunsKeepTheLimit(d, es[..|es| - 1], user);
      if !Validates(mid, e, user) {
        StepKeepsReach(mid, e, user);
      } else if !(At(mid, e.id, Loaded) && At(Step(mid, e), e.id, Validated)) {
        FailedValidationKeepsReach(mid, e.id, user);
      }
    }
  }

  // ----- before the first call

  /** One more call of the user loads the coupon and validates, all before anything commits. */
  lemma OneMoreValidates(d: Desk, user: string, plan: string, now: int) returns (es: seq<Event>)
    requires Sound(d) && CheckActive(d.coupon, now).None? && CheckUser(d.coupon, plan, UsesBy(d, user)).None?
    ensures var after := Run(d, es);
            && after == d.(calls := after.calls) && Sound(after) && Pending(after, user) == Pending(d, user) + 1
  {
    var id := |d.calls|;
    es := [EBegin(user, plan), ELoad(id, now), EValidate(id)];
    var a := Step(d, EBegin(user, plan));
    var b := Load(a, id, now);
    var c := Validate(b, id);
    RunSnoc(d, [], es[0]);
    RunSnoc(d, [es[0]], es[1]);
    RunSnoc(d, [es[0], es[1]], es[2]);
    assert [] + [es[0]] == [es[0]] && [es[0]] + [es[1]] == [es[0], es[1]] && [es[0], es[1]] + [es[2]] == es;
    StepKeepsSound(d, es[0]);
    StepKeepsSound(a, es[1]);
    StepKeepsSound(b, es[2]);
    SumAppend(d.calls, Call(user, plan, Begun), InFlight(user));
    MovePending(a, id, Loaded, user);
    MovePending(b, id, Validated, user);
  }

  lemma {:induction false} ManyValidate(d: Desk, user: string, plan: string, now: int, n: nat) returns (es: seq<Event>)
    requires Sound(d) && CheckActive(d.coupon, now).None? && CheckUser(d.coupon, plan, UsesBy(d, user)).None?
    ensures var after := Run(d, es);
            && after == d.(calls := after.calls) && Sound(after) && Pending(after, user) == Pending(d, user) + n
  {
    if n == 0 {
      es := [];
    } else {
      var first := ManyValidate(d, user, plan, now, n - 1);
      var last := OneMoreValidates(Run(d, first), user, plan, now);
      RunConcat(d, first, last);
      es := first + last;
    }
  }

  lemma {:induction false} UsesGrowWithTheCounter(d: Desk, es: seq<Event>, user: string)
    ensures UsesBy(Run(d, es), user) - UsesBy(d, user) <= Run(d, es).coupon.redeemed - d.coupon.redeemed
  {
    if es == [] {
    } else {
      var mid, e := Run(d, es[..|es| - 1]), es[|es| - 1];
      UsesGrowWithTheCounter(d, es[..|es| - 1], user);
      if e.ECommit? && e.id < |mid.calls| {
        SumAppend(mid.uses, mid.calls[e.id].user, ByUser(user));
      }
    }
  }

  /** For a user who may use the coupon now, whatever the number of calls: every run keeps the
      per-user limit exactly when the coupon's remaining global uses cannot exceed it. */
  lemma LimitHoldsIffGlobalUsesFit(d: Desk, user: string, plan: string, now: int)
    requires Fresh(d) && CheckActive(d.coupon, now).None? && CheckUser(d.coupon, plan, UsesBy(d, user)).None?
    ensures (forall es :: UsesBy(Run(d, es), user) <= d.coupon.maxPerUser)
       <==> (d.coupon.maxRedemptions.Some?
             && UsesBy(d, user) + d.coupon.maxRedemptions.value - d.coupon.redeemed <= d.coupon.maxPerUser)
  {
    var max := d.coupon.maxRedemptions;
    if max.Some? && UsesBy(d, user) + max.value - d.coupon.redeemed <= d.coupon.maxPerUser {
      forall es ensures UsesBy(Run(d, es), user) <= d.coupon.maxPerUser {
        RunKeepsSound(d, es);
        UsesGrowWithTheCounter(d, es, user);
      }
    } else {
      var n := d.coupon.maxPerUser - UsesBy(d, user) + 1;
      var crowd := ManyValidate(d, user, plan, now, n);
      var serve := ReachIsReached(Run(d, crowd), user);
      RunConcat(d, crowd, serve);
    }
  }

  // ----- an undisturbed redemption

  /** Everything the rules ask of one more use of the coupon. */
  ghost predicate Allowed(d: Desk, user: string, plan: string, now: int) {
    var c := d.coupon;
    && c.active
    && (c.validFrom.Some? ==> c.validFrom.value <= now) && (c.validUntil.Some? ==> now < c.validUntil.value)
    && (c.maxRedemptions.Some? ==> c.redeemed < c.maxRedemptions.value)
    && (c.planCodes == [] || plan in c.planCodes)
    && SumBy(d.uses, ByUser(user)) < c.maxPerUser
  }

  lemma RunFive(d: Desk, e1: Event, e2: Event, e3: Event, e4: Event, e5: Event)
    ensures Run(d, [e1, e2, e3, e4, e5]) == Step(Step(Step(Step(Step(d, e1), e2), e3), e4), e5)
  {
    RunOne(d, e1);
    RunSnoc(d, [e1], e2);
    RunSnoc(d, [e1, e2], e3);
    RunSnoc(d, [e1, e2, e3], e4);
    RunSnoc(d, [e1, e2, e3, e4], e5);
    assert [e1] + [e2] == [e1, e2] && [e1, e2] + [e3] == [e1, e2, e3] && [e1, e2, e3] + [e4] == [e1, e2, e3, e4];
    assert [e1, e2, e3, e4] + [e5] == [e1, e2, e3, e4, e5];
  }

  /** With the coupon's row free, a call that nobody gets in the way of is served exactly when the rules
      allow the use; it is then counted and recorded, and otherwise nothing is. */
  lemma UndisturbedRedemption(d: Desk, user: string, plan: string, now: int)
    requires d.holder.None?
    ensures var id := |d.calls|;
            var after := Run(d, [EBegin(user, plan), ELoad(id, now), EValidate(id), EIncrement(id), ECommit(id)]);
            && id < |after.calls| && after.holder.None?
            && (after.calls[id].phase == Done <==> Allowed(d, user, plan, now))
            && (Allowed(d, user, plan, now) ==>
                  after.uses == d.uses + [user] && after.coupon == d.coupon.(redeemed := d.coupon.redeemed + 1))
            && (!Allowed(d, user, plan, now) ==> after.uses == d.uses && after.coupon == d.coupon)
  {
    var id := |d.calls|;
    RunFive(d, EBegin(user, plan), ELoad(id, now), EValidate(id), EIncrement(id), ECommit(id));
  }
}
