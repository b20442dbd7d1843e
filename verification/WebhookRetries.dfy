/** The retry budget and the retry waits of a webhook row. */
module WebhookRetries {
  import opened Common
  import opened Webhooks
  import opened WebhookLeases

  // ----- the schedule

  function Base(attempt: nat): real
    requires 1 <= attempt <= 6
  {
    RETRY_DELAYS[attempt]
  }

  ghost predicate InBand(wait: real, attempt: nat)
    requires 1 <= attempt <= 6
  {
    0.75 * Base(attempt) <= wait <= 1.25 * Base(attempt)
  }

  lemma WaitInBand(attempt: nat, jitter: real)
    requires 1 <= attempt <= 6 && JitterOk(jitter)
    ensures InBand(Wait(attempt, jitter), attempt)
  {
  }

  /** Waits for failures one, two, three and so on, whatever the jitter was. */
  ghost predicate Schedule(waits: seq<real>) {
    |waits| <= 6 && forall k :: 0 <= k < |waits| ==> InBand(waits[k], k + 1)
  }

  function Total(waits: seq<real>): real {
    if waits == [] then 0.0 else Total(waits[..|waits| - 1]) + waits[|waits| - 1]
  }

  /** Without jitter the six waits are those of the source and add up to 112350 seconds. */
  lemma SteadySchedule()
    ensures Wait(1, 0.0) == 30.0 && Wait(2, 0.0) == 120.0 && Wait(3, 0.0) == 600.0
    ensures Wait(4, 0.0) == 3600.0 && Wait(5, 0.0) == 21600.0 && Wait(6, 0.0) == 86400.0
    ensures Total([Wait(1, 0.0), Wait(2, 0.0), Wait(3, 0.0), Wait(4, 0.0), Wait(5, 0.0), Wait(6, 0.0)]) == 112350.0
  {
    TotalOfSix(30.0, 120.0, 600.0, 3600.0, 21600.0, 86400.0);
  }

  lemma TotalSnoc(waits: seq<real>, wait: real)
    ensures Total(waits + [wait]) == Total(waits) + wait
  {
    assert (waits + [wait])[..|waits|] == waits;
  }

  lemma TotalOfSix(a: real, b: real, c: real, d: real, e: real, f: real)
    ensures Total([a, b, c, d, e, f]) == a + b + c + d + e + f
  {
    TotalSnoc([], a);
    TotalSnoc([a], b);
    TotalSnoc([a, b], c);
    TotalSnoc([a, b, c], d);
    TotalSnoc([a, b, c, d], e);
    TotalSnoc([a, b, c, d, e], f);
    assert [] + [a] == [a] && [a] + [b] == [a, b] && [a, b] + [c] == [a, b, c];
    assert [a, b, c] + [d] == [a, b, c, d] && [a, b, c, d] + [e] == [a, b, c, d, e];
    assert [a, b, c, d, e] + [f] == [a, b, c, d, e, f];
  }

  /** Consecutive bands do not touch: every wait is longer than the one before. */
  lemma WaitsIncrease(waits: seq<real>, j: nat, k: nat)
    requires Schedule(waits) && j < k < |waits|
    ensures waits[j] < waits[k]
  {
  }

  function Ceiling(n: nat): real
    requires n <= 6
  {
    if n == 0 then 0.0 else Ceiling(n - 1) + 1.25 * Base(n)
  }

  lemma {:induction false} TotalUnderCeiling(waits: seq<real>)
    requires Schedule(waits)
    ensures Total(waits) <= Ceiling(|waits|)
  {
    if waits == [] {
    } else {
      TotalUnderCeiling(waits[..|waits| - 1]);
      assert InBand(waits[|waits| - 1], |waits|);
    }
  }

  lemma CeilingBound(n: nat)
    requires n <= 6
    ensures Ceiling(n) <= 1.25 * 112350.0
  {
    assert Ceiling(1) == 37.5;
    assert Ceiling(2) == 187.5;
    assert Ceiling(3) == 937.5;
    assert Ceiling(4) == 5437.5;
    assert Ceiling(5) == 32437.5;
    assert Ceiling(6) == 140437.5;
  }

  // ----- the budget

  predicate Open(s: Status) {
    s == Pending || s == Dispatching
  }

  /** What the applied outcomes say of the row: it waits while they are all failures, is delivered by
      a success, and dead by a fatal one or the seventh failure; while it is open it is due when it
      was enqueued, or the last wait after the batch that failed it. */
  ghost predicate HistoryOk(row: Attempt, log: Log) {
    var os, n := log.outcomes, |log.outcomes|;
    && (forall k :: 0 <= k < n - 1 ==> os[k].Failure?)
    && (row.status == Delivered <==> n > 0 && os[n - 1].Success?)
    && (row.status == Dead <==> n > 0 && (os[n - 1].Fatal? || (n == 7 && os[n - 1].Failure?)))
    && n == row.attempt + (if n > 0 && os[n - 1].Fatal? then 1 else 0)
    && (Open(row.status) ==>
          |log.waits| == n && row.nextRunAt == if n == 0 then log.born else log.last + log.waits[n - 1])
  }

  ghost predicate RowOk(row: Attempt, log: Log) {
    && HistoryOk(row, log)
    && row.maxAttempts == MAX_ATTEMPTS
    && log.applied == row.attempt <= MAX_ATTEMPTS
    && Schedule(log.waits)
    && (Open(row.status) ==> row.attempt < MAX_ATTEMPTS && |log.waits| == row.attempt)
  }

  ghost predicate Budget(w: World) {
    |w.logs| == |w.rows| && forall i :: 0 <= i < |w.rows| ==> RowOk(w.rows[i], w.logs[i])
  }

  /** One outcome uses up one attempt and closes the row when the last one is gone. */
  lemma SettleKeepsRow(row: Attempt, log: Log, o: Outcome, now: real)
    requires RowOk(row, log) && Open(row.status) && (o.Failure? ==> JitterOk(o.jitter))
    ensures RowOk(Settle(row, o, now), Record(log, row, o, now))
    ensures !o.Fatal? ==> MAX_ATTEMPTS - Settle(row, o, now).attempt < MAX_ATTEMPTS - row.attempt
  {
  }

  lemma FinishKeepsBudget(w: World, d: nat, outcomes: seq<Outcome>)
    requires Inv(w) && Budget(w)
    ensures Budget(Finish(w, d, outcomes))
  {
    var after := Finish(w, d, outcomes);
    if d in w.batches && w.batches[d].Loaded? && OutcomesOk(w.batches[d].held, outcomes) {
      var b := w.batches[d];
      HeldInRange(w);
      assert BatchOk(w, b);
      ApplyAllLeaves(w, b.held, outcomes, b.now);
      forall i: nat | i < |after.rows| ensures RowOk(after.rows[i], after.logs[i]) {
        assert RowOk(w.rows[i], w.logs[i]);
        if Among(b.held, i) {
          var k :| 0 <= k < |b.held| && b.held[k].id == i;
          assert HeldOk(w, b, b.held[k]);
          ApplyAllEffect(w, b.held, outcomes, b.now, k);
          assert outcomes[k] in outcomes;
          SettleKeepsRow(w.rows[i], w.logs[i], outcomes[k], b.now);
        }
      }
    }
  }

  lemma StepKeepsBudget(w: World, e: Event)
    requires Inv(w) && Budget(w)
    ensures Budget(Step(w, e))
  {
    if e.EFinish? {
      FinishKeepsBudget(w, e.d, e.outcomes);
    } else {
      var after := Step(w, e);
      forall i | 0 <= i < |after.rows| ensures RowOk(after.rows[i], after.logs[i]) {
        assert i < |w.rows| ==> RowOk(w.rows[i], w.logs[i]);
      }
    }
  }

  lemma {:induction false} RunKeepsBudget(es: seq<Event>)
    requires Good(es)
    ensures Budget(Run(Fresh(), es))
  {
    if es == [] {
    } else {
      RunKeepsBudget(es[..|es| - 1]);
      RunKeeps(es[..|es| - 1]);
      StepKeepsBudget(Run(Fresh(), es[..|es| - 1]), es[|es| - 1]);
    }
  }

  /** In every well-behaved run a row absorbs at most seven non-fatal outcomes, fewer while it is
      still open; the waits between them strictly increase and add up to at most 1.25 * 112350 s. */
  lemma RetriesAreBounded(es: seq<Event>, i: nat)
    requires Good(es) && i < |Run(Fresh(), es).rows|
    ensures var w := Run(Fresh(), es);
            && |w.logs| == |w.rows|
            && w.logs[i].applied == w.rows[i].attempt <= 7
            && (Open(w.rows[i].status) ==> w.logs[i].applied < 7)
            && (forall j, k :: 0 <= j < k < |w.logs[i].waits| ==> w.logs[i].waits[j] < w.logs[i].waits[k])
            && Total(w.logs[i].waits) <= 1.25 * 112350.0
  {
    var w := Run(Fresh(), es);
    RunKeepsBudget(es);
    assert RowOk(w.rows[i], w.logs[i]);
    forall j, k | 0 <= j < k < |w.logs[i].waits| ensures w.logs[i].waits[j] < w.logs[i].waits[k] {
      WaitsIncrease(w.logs[i].waits, j, k);
    }
    TotalUnderCeiling(w.logs[i].waits);
    CeilingBound(|w.logs[i].waits|);
  }

  // ----- delivered and dead are final

  lemma StepKeepsClosed(w: World, e: Event, i: nat)
    requires Inv(w) && i < |w.rows| && !Open(w.rows[i].status)
    ensures i < |Step(w, e).rows| && Step(w, e).rows[i] == w.rows[i]
  {
    if e.EFinish? && e.d in w.batches && w.batches[e.d].Loaded? && OutcomesOk(w.batches[e.d].held, e.outcomes) {
      var b := w.batches[e.d];
      HeldInRange(w);
      assert BatchOk(w, b);
      ApplyAllLeaves(w, b.held, e.outcomes, b.now);
      forall k | 0 <= k < |b.held| ensures b.held[k].id != i {
        assert HeldOk(w, b, b.held[k]);
      }
      assert !Among(b.held, i);
    }
  }

  /** Once delivered or dead, a row never changes again, however the run goes on. */
  lemma {:induction false} ClosedIsFinal(es: seq<Event>, n: nat, i: nat)
    requires Good(es) && n <= |es| && i < |Run(Fresh(), es[..n]).rows|
    requires !Open(Run(Fresh(), es[..n]).rows[i].status)
    ensures i < |Run(Fresh(), es).rows| && Run(Fresh(), es).rows[i] == Run(Fresh(), es[..n]).rows[i]
    decreases |es|
  {
    if n == |es| {
      assert es[..n] == es;
    } else {
      var prev := es[..|es| - 1];
      assert prev[..n] == es[..n];
      ClosedIsFinal(prev, n, i);
      RunKeeps(prev);
      StepKeepsClosed(Run(Fresh(), prev), es[|es| - 1], i);
    }
  }
}
