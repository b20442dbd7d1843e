/** What became of every webhook row, told by the outcomes that were applied to it. */
module WebhookOutcomes {
  import opened Common
  import opened Sums
  import opened Webhooks
  import opened WebhookLeases
  import opened WebhookRetries

  ghost predicate LastIs(log: Log, o: Outcome) {
    log.outcomes != [] && log.outcomes[|log.outcomes| - 1] == o
  }

  /** Over every run with distinct tokens and timely batches: a row is delivered exactly when its last
      applied outcome is a success, and dead exactly when that is fatal or the seventh failure; every
      earlier outcome is a failure. While it is open it is due when it was enqueued or, once it has
      failed, one wait after the batch that failed it, the wait lying within a quarter of the delay
      scheduled for that failure. */
  lemma RowTellsItsHistory(es: seq<Event>, i: nat)
    requires Good(es) && i < |Run(Fresh(), es).rows|
    ensures var w := Run(Fresh(), es);
      |w.logs| == |w.rows| &&
      var row, log, n := w.rows[i], w.logs[i], |w.logs[i].outcomes|;
      && (row.status == Delivered <==> LastIs(log, Success))
      && (row.status == Dead <==> n > 0 && (log.outcomes[n - 1].Fatal? || (n == 7 && log.outcomes[n - 1].Failure?)))
      && (forall k :: 0 <= k < n - 1 ==> log.outcomes[k].Failure?)
      && (row.status == Pending || row.status == Dispatching ==>
            && n <= 6 && |log.waits| == n
            && (n == 0 ==> row.nextRunAt == log.born)
            && (n > 0 ==> row.nextRunAt == log.last + log.waits[n - 1] && InBand(log.waits[n - 1], n)))
  {
    RunKeepsBudget(es);
    var w := Run(Fresh(), es);
    assert RowOk(w.rows[i], w.logs[i]);
  }

  // ----- the returned counts

  function IsDelivered(): Attempt -> int {
    (row: Attempt) => if row.status == Delivered then 1 else 0
  }

  /** The sum of what the batches of a run returned. */
  function Returned(es: seq<Event>): nat {
    if es == [] then 0
    else
      var mid, e := Run(Fresh(), es[..|es| - 1]), es[|es| - 1];
      Returned(es[..|es| - 1])
      + if e.EFinish? && e.d in mid.batches && mid.batches[e.d].Loaded? && OutcomesOk(mid.batches[e.d].held, e.outcomes)
        then DeliveredCount(e.outcomes) else 0
  }

  lemma SettleDelivers(row: Attempt, o: Outcome, now: real)
    requires row.status == Dispatching
    ensures Settle(row, o, now).status == Delivered <==> o == Success
  {
  }

  lemma {:induction false} ApplyAllDelivers(w: World, held: seq<Held>, outcomes: seq<Outcome>, now: real)
    requires |w.logs| == |w.rows| && |held| == |outcomes| && Increasing(held)
    requires forall k :: 0 <= k < |held| ==>
               held[k].id < |w.rows| && w.rows[held[k].id].status == Dispatching && held[k].row.status == Dispatching
    ensures SumBy(ApplyAll(w, held, outcomes, now).rows, IsDelivered())
         == SumBy(w.rows, IsDelivered()) + DeliveredCount(outcomes)
  {
    if held == [] {
    } else {
      var n := |held| - 1;
      ApplyAllDelivers(w, held[..n], outcomes[..n], now);
      ApplyAllLeaves(w, held[..n], outcomes[..n], now);
      var mid, h := ApplyAll(w, held[..n], outcomes[..n], now), held[n];
      assert !Among(held[..n], h.id);
      SettleDelivers(h.row, outcomes[n], now);
      SumUpdate(mid.rows, h.id, Settle(h.row, outcomes[n], now), IsDelivered());
    }
  }

  lemma FinishDelivers(w: World, d: nat, outcomes: seq<Outcome>)
    requires Inv(w) && d in w.batches && w.batches[d].Loaded? && OutcomesOk(w.batches[d].held, outcomes)
    ensures SumBy(Finish(w, d, outcomes).rows, IsDelivered())
         == SumBy(w.rows, IsDelivered()) + DeliveredCount(outcomes)
  {
    var b := w.batches[d];
    assert BatchOk(w, b);
    forall k | 0 <= k < |b.held|
      ensures b.held[k].id < |w.rows| && w.rows[b.held[k].id].status == Dispatching && b.held[k].row.status == Dispatching
    {
      assert HeldOk(w, b, b.held[k]);
    }
    ApplyAllDelivers(w, b.held, outcomes, b.now);
  }

  /** Leasing and resetting move rows between pending and dispatching only. */
  lemma OthersDeliverNothing(w: World, e: Event)
    requires !e.EFinish?
    ensures SumBy(Step(w, e).rows, IsDelivered()) == SumBy(w.rows, IsDelivered())
  {
    match e
    case EEnqueue => SumAppend(w.rows, NewAttempt(w.clock), IsDelivered());
    case EClaim(d, ids, token) =>
      assert forall i :: i in ids && Due(w, i) ==> w.rows[i].status == Pending;
      SumSame(w.rows, Claim(w, d, ids, token).rows, IsDelivered());
    case EReset => SumSame(w.rows, ResetStuck(w).rows, IsDelivered());
    case _ =>
  }

  /** Over every such run the rows that are delivered are as many as the batches said they were. */
  lemma {:induction false} DeliveredAsReturned(es: seq<Event>)
    requires Good(es)
    ensures SumBy(Run(Fresh(), es).rows, IsDelivered()) == Returned(es)
  {
    if es == [] {
    } else {
      var mid, e := Run(Fresh(), es[..|es| - 1]), es[|es| - 1];
      DeliveredAsReturned(es[..|es| - 1]);
      RunKeeps(es[..|es| - 1]);
      if !e.EFinish? {
        OthersDeliverNothing(mid, e);
      } else if e.d in mid.batches && mid.batches[e.d].Loaded? && OutcomesOk(mid.batches[e.d].held, e.outcomes) {
        FinishDelivers(mid, e.d, e.outcomes);
      }
    }
  }

  // ----- nothing is sent before it is due, and no lease is dated more than a second ahead

  ghost predicate NeverEarly(w: World) {
    forall i :: 0 <= i < |w.rows| && w.rows[i].status == Dispatching ==>
      && w.rows[i].claimedAt.Some? && w.rows[i].nextRunAt <= w.rows[i].claimedAt.value
      && w.rows[i].claimedAt.value < w.clock + 1.0
  }

  lemma {:induction false} ApplyAllNeverEarly(w: World, held: seq<Held>, outcomes: seq<Outcome>, now: real)
    requires NeverEarly(w) && |held| == |outcomes|
    requires forall k :: 0 <= k < |held| ==> held[k].row.status == Dispatching
    ensures NeverEarly(ApplyAll(w, held, outcomes, now)) && ApplyAll(w, held, outcomes, now).clock == w.clock
  {
    if held == [] {
    } else {
      var n := |held| - 1;
      ApplyAllNeverEarly(w, held[..n], outcomes[..n], now);
    }
  }

  ghost predicate CopiesLeased(w: World) {
    forall d, k :: d in w.batches && w.batches[d].Loaded? && 0 <= k < |w.batches[d].held| ==>
      w.batches[d].held[k].row.status == Dispatching
  }

  lemma {:induction false} HeldFromLeased(rows: seq<Attempt>, token: real)
    ensures forall k :: 0 <= k < |HeldFrom(rows, token)| ==> HeldFrom(rows, token)[k].row.status == Dispatching
  {
    if rows == [] {
    } else {
      HeldFromLeased(rows[..|rows| - 1], token);
    }
  }

  lemma StepNeverEarly(w: World, e: Event)
    requires NeverEarly(w) && CopiesLeased(w)
    ensures NeverEarly(Step(w, e)) && CopiesLeased(Step(w, e))
  {
    match e
    case EClaim(d, ids, token) => assert forall i :: i in ids ==> Due(w, i) || !Due(w, i);
    case ELoad(d) =>
      if d in w.batches {
        HeldFromLeased(w.rows, w.batches[d].token);
      }
    case EFinish(d, outcomes) =>
      if d in w.batches && w.batches[d].Loaded? && OutcomesOk(w.batches[d].held, outcomes) {
        ApplyAllNeverEarly(w, w.batches[d].held, outcomes, w.batches[d].now);
        ApplyAllBatches(w, w.batches[d].held, outcomes, w.batches[d].now);
      }
    case _ =>
  }

  lemma {:induction false} ApplyAllBatches(w: World, held: seq<Held>, outcomes: seq<Outcome>, now: real)
    requires |held| == |outcomes|
    ensures ApplyAll(w, held, outcomes, now).batches == w.batches
  {
    if held == [] {
    } else {
      ApplyAllBatches(w, held[..|held| - 1], outcomes[..|held| - 1], now);
    }
  }

  /** In every run, however late dispatchers are, a leased row was due when it was leased, and its claim
      is dated less than a second after that. */
  lemma {:induction false} RunNeverEarly(es: seq<Event>)
    ensures NeverEarly(Run(Fresh(), es)) && CopiesLeased(Run(Fresh(), es))
  {
    if es == [] {
    } else {
      RunNeverEarly(es[..|es| - 1]);
      StepNeverEarly(Run(Fresh(), es[..|es| - 1]), es[|es| - 1]);
    }
  }
}
