/** Exclusive leases, the retry budget and the retry waits, over every run. */
module WebhookLeases {
  import opened Common
  import opened Webhooks

  // ----- in every run: leased means claimed

  ghost predicate LeaseMarked(w: World) {
    && |w.logs| == |w.rows|
    && (forall i :: 0 <= i < |w.rows| ==> (w.rows[i].status == Dispatching <==> w.rows[i].claimedAt.Some?))
  }

  lemma {:induction false} ApplyAllMarks(w: World, held: seq<Held>, outcomes: seq<Outcome>, now: real)
    requires LeaseMarked(w) && |held| == |outcomes|
    ensures LeaseMarked(ApplyAll(w, held, outcomes, now))
    ensures |ApplyAll(w, held, outcomes, now).rows| == |w.rows|
    ensures ApplyAll(w, held, outcomes, now).batches == w.batches
    ensures ApplyAll(w, held, outcomes, now).clock == w.clock
  {
    if held == [] {
    } else {
      ApplyAllMarks(w, held[..|held| - 1], outcomes[..|held| - 1], now);
    }
  }

  lemma StepMarks(w: World, e: Event)
    requires LeaseMarked(w)
    ensures LeaseMarked(Step(w, e))
  {
    if e.EFinish? && e.d in w.batches && w.batches[e.d].Loaded? && OutcomesOk(w.batches[e.d].held, e.outcomes) {
      ApplyAllMarks(w, w.batches[e.d].held, e.outcomes, w.batches[e.d].now);
    }
  }

  /** However late dispatchers are, a row is `dispatching` exactly when it carries a claim. */
  lemma {:induction false} RunMarks(es: seq<Event>)
    ensures LeaseMarked(Run(Fresh(), es))
  {
    if es == [] {
    } else {
      RunMarks(es[..|es| - 1]);
      StepMarks(Run(Fresh(), es[..|es| - 1]), es[|es| - 1]);
    }
  }

  // ----- well-behaved runs

  /** No row on lease and no dispatcher carries this token. */
  predicate TokenUnused(w: World, token: real) {
    && (forall i | 0 <= i < |w.rows| :: w.rows[i].claimedAt != Some(token))
    && (forall d | d in w.batches :: w.batches[d].token != token)
  }

  /** Every batch still under way is younger than `limit`. */
  ghost predicate Timely(w: World, limit: real) {
    forall d :: d in w.batches ==> w.clock < w.batches[d].token + limit
  }

  ghost predicate GoodStep(w: World, e: Event, limit: real) {
    (e.EClaim? ==> TokenUnused(w, e.token)) && Timely(Step(w, e), limit)
  }

  /** Claim tokens are distinct and every batch is applied or gives up before it is `limit` old. */
  ghost predicate GoodWithin(es: seq<Event>, limit: real) {
    es == [] || (GoodWithin(es[..|es| - 1], limit) && GoodStep(Run(Fresh(), es[..|es| - 1]), es[|es| - 1], limit))
  }

  /** The same with the stuck timeout as the limit. */
  ghost predicate Good(es: seq<Event>) {
    GoodWithin(es, STUCK_TIMEOUT)
  }

  // ----- the lease invariant

  ghost predicate HeldOk(w: World, b: Batch, h: Held) {
    && h.id < |w.rows|
    && w.rows[h.id] == h.row
    && h.row.status == Dispatching
    && h.row.claimedAt == Some(b.token)
  }

  ghost predicate BatchOk(w: World, b: Batch) {
    b.Loaded? ==>
      && (forall k :: 0 <= k < |b.held| ==> HeldOk(w, b, b.held[k]))
      && (forall j, k :: 0 <= j < k < |b.held| ==> b.held[j].id < b.held[k].id)
  }

  ghost predicate Inv(w: World) {
    && LeaseMarked(w)
    && Timely(w, STUCK_TIMEOUT)
    && (forall d :: d in w.batches ==> BatchOk(w, w.batches[d]))
    && (forall d, f :: d in w.batches && f in w.batches && d != f ==> w.batches[d].token != w.batches[f].token)
  }

  ghost predicate Holds(w: World, d: nat, i: nat) {
    d in w.batches && w.batches[d].Loaded? && exists k :: 0 <= k < |w.batches[d].held| && w.batches[d].held[k].id == i
  }

  /** Rows on lease to the surviving batches did not move. */
  lemma BatchesFrame(w: World, after: World)
    requires Inv(w) && LeaseMarked(after) && Timely(after, STUCK_TIMEOUT) && |w.rows| <= |after.rows|
    requires forall d :: d in after.batches ==> d in w.batches && after.batches[d] == w.batches[d]
    requires forall d, k :: d in after.batches && after.batches[d].Loaded? && 0 <= k < |after.batches[d].held|
               ==> after.rows[after.batches[d].held[k].id] == w.rows[after.batches[d].held[k].id]
    ensures Inv(after)
  {
  }

  lemma EnqueueKeeps(w: World)
    requires Inv(w)
    ensures Inv(Enqueue(w))
  {
  }

  lemma HeldInRange(w: World)
    requires Inv(w)
    ensures forall d, k :: d in w.batches && w.batches[d].Loaded? && 0 <= k < |w.batches[d].held| ==>
              HeldOk(w, w.batches[d], w.batches[d].held[k])
  {
  }

  lemma ClaimKeeps(w: World, d: nat, ids: set<nat>, token: real)
    requires Inv(w) && GoodStep(w, EClaim(d, ids, token), STUCK_TIMEOUT)
    ensures Inv(Claim(w, d, ids, token))
  {
  }

  lemma {:induction false} HeldFromOk(w: World, rows: seq<Attempt>, token: real, now: real)
    requires rows <= w.rows
    ensures BatchOk(w, Loaded(token, now, HeldFrom(rows, token)))
    ensures forall h :: h in HeldFrom(rows, token) ==> h.id < |rows|
  {
    if rows == [] {
    } else {
      var n := |rows| - 1;
      HeldFromOk(w, rows[..n], token, now);
      var before, held := HeldFrom(rows[..n], token), HeldFrom(rows, token);
      assert forall k :: 0 <= k < |before| ==> HeldOk(w, Loaded(token, now, before), before[k]) && before[k] in before;
      assert held == before || held == before + [Held(n, rows[n])];
      forall k | 0 <= k < |held| ensures HeldOk(w, Loaded(token, now, held), held[k]) {
        assert k < |before| ==> held[k] == before[k];
      }
    }
  }

  lemma LoadKeeps(w: World, d: nat)
    requires Inv(w)
    ensures Inv(Load(w, d))
  {
    var after := Load(w, d);
    if after != w {
      HeldFromOk(w, w.rows, w.batches[d].token, w.batches[d].now);
      forall f | f in after.batches ensures BatchOk(after, after.batches[f]) {
        if f == d {
          assert BatchOk(w, after.batches[d]);
        } else {
          assert BatchOk(w, w.batches[f]);
        }
      }
    }
  }

  lemma ResetKeeps(w: World)
    requires Inv(w)
    ensures Inv(ResetStuck(w))
  {
  }

  // ----- applying a batch

  ghost predicate Increasing(held: seq<Held>) {
    forall j, k :: 0 <= j < k < |held| ==> held[j].id < held[k].id
  }

  ghost predicate Among(held: seq<Held>, i: nat) {
    exists k :: 0 <= k < |held| && held[k].id == i
  }

  /** Rows and logs outside the batch are left alone. */
  lemma {:induction false} ApplyAllLeaves(w: World, held: seq<Held>, outcomes: seq<Outcome>, now: real)
    requires |w.logs| == |w.rows| && |held| == |outcomes|
    ensures var after := ApplyAll(w, held, outcomes, now);
            && |after.rows| == |w.rows| && |after.logs| == |w.logs|
            && (forall i: nat :: i < |w.rows| && !Among(held, i) ==>
                  after.rows[i] == w.rows[i] && after.logs[i] == w.logs[i])
  {
    if held == [] {
    } else {
      var n := |held| - 1;
      ApplyAllLeaves(w, held[..n], outcomes[..n], now);
    }
  }

  /** Each held row gets its outcome. */
  lemma {:induction false} ApplyAllEffect(w: World, held: seq<Held>, outcomes: seq<Outcome>, now: real, k: nat)
    requires |w.logs| == |w.rows| && |held| == |outcomes| && Increasing(held) && k < |held| && held[k].id < |w.rows|
    ensures var after := ApplyAll(w, held, outcomes, now);
            && |after.rows| == |w.rows| && |after.logs| == |w.logs|
            && after.rows[held[k].id] == Settle(held[k].row, outcomes[k], now)
            && after.logs[held[k].id] == Record(w.logs[held[k].id], held[k].row, outcomes[k], now)
  {
    var n := |held| - 1;
    ApplyAllLeaves(w, held[..n], outcomes[..n], now);
    if k < n {
      ApplyAllEffect(w, held[..n], outcomes[..n], now, k);
    } else {
    }
  }

  lemma FinishKeeps(w: World, d: nat, outcomes: seq<Outcome>)
    requires Inv(w) && GoodStep(w, EFinish(d, outcomes), STUCK_TIMEOUT)
    ensures Inv(Finish(w, d, outcomes))
  {
    StepMarks(w, EFinish(d, outcomes));
    var after := Finish(w, d, outcomes);
    if d in w.batches && w.batches[d].Loaded? && OutcomesOk(w.batches[d].held, outcomes) {
      var b := w.batches[d];
      HeldInRange(w);
      assert BatchOk(w, b);
      ApplyAllLeaves(w, b.held, outcomes, b.now);
      ApplyAllMarks(w, b.held, outcomes, b.now);
      forall f, k | f in after.batches && after.batches[f].Loaded? && 0 <= k < |after.batches[f].held|
        ensures after.rows[after.batches[f].held[k].id] == w.rows[after.batches[f].held[k].id]
      {
        var i := w.batches[f].held[k].id;
        assert HeldOk(w, w.batches[f], w.batches[f].held[k]);
      }
      BatchesFrame(w, after);
    }
  }

  lemma StepKeeps(w: World, e: Event)
    requires Inv(w) && GoodStep(w, e, STUCK_TIMEOUT)
    ensures Inv(Step(w, e))
  {
    match e
    case EEnqueue => EnqueueKeeps(w);
    case EClaim(d, ids, token) => ClaimKeeps(w, d, ids, token);
    case ELoad(d) => LoadKeeps(w, d);
    case EFinish(d, outcomes) => FinishKeeps(w, d, outcomes);
    case ECrash(d) =>
      HeldInRange(w);
      BatchesFrame(w, Crash(w, d));
    case EReset => ResetKeeps(w);
    case ETick(dt) =>
      HeldInRange(w);
      BatchesFrame(w, Tick(w, dt));
  }

  lemma {:induction false} RunKeeps(es: seq<Event>)
    requires Good(es)
    ensures Inv(Run(Fresh(), es))
  {
    if es == [] {
    } else {
      RunKeeps(es[..|es| - 1]);
      StepKeeps(Run(Fresh(), es[..|es| - 1]), es[|es| - 1]);
    }
  }

  /** In every well-behaved run, no row is ever held by two dispatchers at once, and the copy a
      dispatcher holds is the row as stored. */
  lemma NoDoubleDispatch(es: seq<Event>, d: nat, f: nat, i: nat)
    requires Good(es) && Holds(Run(Fresh(), es), d, i) && Holds(Run(Fresh(), es), f, i)
    ensures d == f
    ensures i < |Run(Fresh(), es).rows| && Run(Fresh(), es).rows[i].status == Dispatching
            && Run(Fresh(), es).rows[i].claimedAt == Some(Run(Fresh(), es).batches[d].token)
  {
    var w := Run(Fresh(), es);
    RunKeeps(es);
    HeldInRange(w);
  }

  /** Why timeliness matters: as soon as a live batch is older than the stuck timeout, a reset and a
      second claim hand its rows to another dispatcher as well. */
  lemma LateBatchCanBeDoubled(w: World, d: nat, f: nat, i: nat)
    requires LeaseMarked(w) && Holds(w, d, i) && f !in w.batches
    requires i < |w.rows| && w.rows[i].status == Dispatching && w.rows[i].claimedAt == Some(w.batches[d].token)
    requires w.rows[i].nextRunAt <= w.clock && w.batches[d].token + STUCK_TIMEOUT <= w.clock
    ensures var again := Load(Claim(ResetStuck(w), f, {i}, w.clock), f);
            Holds(again, d, i) && Holds(again, f, i)
  {
    var r := ResetStuck(w);
    assert Stuck(w, w.rows[i]) && Due(r, i);
    var c := Claim(r, f, {i}, w.clock);
    assert c.rows[i].status == Dispatching && c.rows[i].claimedAt == Some(w.clock);
    HeldComplete(c.rows, w.clock, i);
    var again := Load(c, f);
    assert again.batches[d] == w.batches[d];
  }

  // ----- the stuck timeout is the exact bound on a batch's age

  ghost predicate SinglyHeld(w: World) {
    forall d, f, i: nat :: Holds(w, d, i) && Holds(w, f, i) ==> d == f
  }

  lemma {:induction false} TighterIsGood(es: seq<Event>, limit: real)
    requires GoodWithin(es, limit) && limit <= STUCK_TIMEOUT
    ensures Good(es)
  {
    if es == [] {
    } else {
      TighterIsGood(es[..|es| - 1], limit);
    }
  }

  lemma RunSnoc(w: World, es: seq<Event>, e: Event)
    ensures Run(w, es + [e]) == Step(Run(w, es), e)
  {
    assert (es + [e])[..|es + [e]| - 1] == es;
  }

  lemma GoodSnoc(es: seq<Event>, e: Event, limit: real)
    requires GoodWithin(es, limit) && GoodStep(Run(Fresh(), es), e, limit)
    ensures GoodWithin(es + [e], limit) && Run(Fresh(), es + [e]) == Step(Run(Fresh(), es), e)
  {
    RunSnoc(Fresh(), es, e);
    assert (es + [e])[..|es + [e]| - 1] == es;
  }

  function Leased(token: real): Attempt {
    Attempt(Dispatching, 0, MAX_ATTEMPTS, 0.0, Some(token))
  }

  /** One row, leased at time zero by dispatcher 0, which is still at it when the timeout is up. */
  function Late(): World {
    World(STUCK_TIMEOUT, [Leased(0.0)], [Log(0.0, [], 0, [], 0.0)], map[0 := Loaded(0.0, 0.0, [Held(0, Leased(0.0))])])
  }

  lemma LateIsReachable(limit: real) returns (es: seq<Event>)
    requires limit > STUCK_TIMEOUT
    ensures GoodWithin(es, limit) && Run(Fresh(), es) == Late()
  {
    es := ClaimedIsReachable(limit);
    LeaseSteps();
    es := Extended(es, ELoad(0), limit, Late().(clock := 0.0));
    es := Extended(es, ETick(STUCK_TIMEOUT), limit, Late());
  }

  lemma ClaimedIsReachable(limit: real) returns (es: seq<Event>)
    requires limit > 0.0
    ensures GoodWithin(es, limit) && Run(Fresh(), es) == Claim(Queued(), 0, {0}, 0.0)
  {
    es := Extended([], EEnqueue, limit, Queued());
    LeaseSteps();
    es := Extended(es, EClaim(0, {0}, 0.0), limit, Claim(Queued(), 0, {0}, 0.0));
  }

  function Queued(): World {
    World(0.0, [NewAttempt(0.0)], [Log(0.0, [], 0, [], 0.0)], map[])
  }

  lemma LeaseSteps()
    ensures var c := Claim(Queued(), 0, {0}, 0.0);
            && c == World(0.0, [Leased(0.0)], [Log(0.0, [], 0, [], 0.0)], map[0 := Claimed(0.0, 0.0)])
            && Load(c, 0) == Late().(clock := 0.0)
  {
    assert [Leased(0.0)][..0] == [];
    assert HeldFrom([Leased(0.0)], 0.0) == [Held(0, Leased(0.0))];
  }

  lemma Extended(es: seq<Event>, e: Event, limit: real, w: World) returns (fs: seq<Event>)
    requires GoodWithin(es, limit) && Step(Run(Fresh(), es), e) == w && Timely(w, limit)
    requires e.EClaim? ==> TokenUnused(Run(Fresh(), es), e.token)
    ensures GoodWithin(fs, limit) && Run(Fresh(), fs) == w
  {
    GoodSnoc(es, e, limit);
    fs := es + [e];
  }

  /** With a limit above the timeout, a well-behaved run ends with one row in two hands. */
  lemma LateRunDoubles(limit: real) returns (es: seq<Event>)
    requires limit > STUCK_TIMEOUT
    ensures GoodWithin(es, limit) && !SinglyHeld(Run(Fresh(), es))
  {
    es := LateIsReachable(limit);
    var w := Late();
    assert w.batches[0].held[0].id == 0;
    var r := ResetStuck(w);
    es := Extended(es, EReset, limit, r);
    var c := Claim(r, 1, {0}, w.clock);
    es := Extended(es, EClaim(1, {0}, w.clock), limit, c);
    var again := Load(c, 1);
    es := Extended(es, ELoad(1), limit, again);
    LateBatchCanBeDoubled(w, 0, 1, 0);
    assert Holds(again, 0, 0) && Holds(again, 1, 0);
  }

  /** With distinct tokens and every live batch younger than a limit, all runs keep every row in a
      single hand exactly when the limit is at most five minutes, the stuck timeout. */
  lemma LeasesSafeIffLimitWithinTimeout(limit: real)
    ensures (forall es :: GoodWithin(es, limit) ==> SinglyHeld(Run(Fresh(), es))) <==> limit <= 300.0
  {
    if limit <= STUCK_TIMEOUT {
      forall es | GoodWithin(es, limit) ensures SinglyHeld(Run(Fresh(), es)) {
        TighterIsGood(es, limit);
        forall d, f, i: nat | Holds(Run(Fresh(), es), d, i) && Holds(Run(Fresh(), es), f, i) ensures d == f {
          NoDoubleDispatch(es, d, f, i);
        }
      }
    } else {
      var es := LateRunDoubles(limit);
    }
  }

  lemma {:induction false} HeldComplete(rows: seq<Attempt>, token: real, i: nat)
    requires i < |rows| && rows[i].status == Dispatching && rows[i].claimedAt == Some(token)
    ensures Among(HeldFrom(rows, token), i)
  {
    var n := |rows| - 1;
    var held := HeldFrom(rows, token);
    if i == n {
      assert held[|held| - 1].id == i;
    } else {
      HeldComplete(rows[..n], token, i);
      var k :| 0 <= k < |HeldFrom(rows[..n], token)| && HeldFrom(rows[..n], token)[k].id == i;
      assert held[k].id == i;
    }
  }
}
